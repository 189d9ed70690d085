/** The self-product of an NFA of the `automata` generation (ProductNFA). A
    product state pairs two NFA states that the same sequence of symbols
    reaches from the start state; it is ambiguous when both stand for the same
    NCA state with different counter values. The exact analysis looks for a
    reachable ambiguous pair; the approximate one runs the exact analysis on
    regexes in which every counter but one occurrence is starred. */
module Products {
  import opened Util
  import opened Configurations

  /** The NFA's transition lists, by state id and symbol. */
  type Table = map<int, map<string, seq<int>>>

  /** A product state: its two NFA states, by id. State.equals compares the
      two states by id, so value equality is the source's equality. */
  datatype Pair = Pair(a: int, b: int)

  /** The product's transition lists, by product state and symbol. */
  type Rows = map<Pair, map<string, seq<Pair>>>

  /** State.isAmbiguous: the same NCA state (NcaState.equals compares ids)
      with different counter maps. */
  predicate Ambiguous(configs: map<int, Configuration>, p: Pair) {
    && p.a in configs && p.b in configs
    && configs[p.a].state == configs[p.b].state
    && configs[p.a].counterValues != configs[p.b].counterValues
  }

  /** The transition lists of a state by symbol (none for an id the table
      does not know). */
  function Row(table: Table, s: int): map<string, seq<int>> {
    if s in table then table[s] else map[]
  }

  /** The elements of a list. */
  function Elements<T>(list: seq<T>): set<T> {
    set x | x in list
  }

  // ---------------------------------------------------------------------------
  // Runs on symbols

  /** The states the lists of `ms` name under `sym`. */
  function Follow(table: Table, ms: set<int>, sym: string): set<int> {
    set s, d | s in ms && s in table && sym in table[s] && d in table[s][sym] :: d
  }

  /** The states reached from `start` on the symbols `w`, one list at a time. */
  function Reached(table: Table, start: int, w: seq<string>): set<int>
    decreases |w|
  {
    if w == [] then {start} else Follow(table, Reached(table, start, w[..|w| - 1]), w[|w| - 1])
  }

  /** The two states of `p` are reached on the same symbols. */
  ghost predicate Together(table: Table, start: int, p: Pair) {
    exists w :: p.a in Reached(table, start, w) && p.b in Reached(table, start, w)
  }

  // ---------------------------------------------------------------------------
  // Product rows

  /** The pairs of `x` with each of the first `n` of `bs`, in their order. */
  function Fan(x: int, bs: seq<int>, n: int): seq<Pair>
    requires 0 <= n <= |bs|
    decreases n
  {
    if n == 0 then [] else Fan(x, bs, n - 1) + [Pair(x, bs[n - 1])]
  }

  /** The pairs of each of the first `n` of `xs` with each of `bs`: `xs` in
      the outer loop. */
  function Cross(xs: seq<int>, n: int, bs: seq<int>): seq<Pair>
    requires 0 <= n <= |xs|
    decreases n
  {
    if n == 0 then [] else Cross(xs, n - 1, bs) + Fan(xs[n - 1], bs, |bs|)
  }

  lemma {:induction false} FanHas(x: int, bs: seq<int>, n: int, q: Pair)
    requires 0 <= n <= |bs|
    ensures q in Fan(x, bs, n) <==> q.a == x && q.b in bs[..n]
    decreases n
  {
    if n > 0 {
      FanHas(x, bs, n - 1, q);
      assert bs[..n] == bs[..n - 1] + [bs[n - 1]];
    }
  }

  /** Cross lists exactly the pairs with a first component among the first
      `n` of `xs` and a second from `bs`. */
  lemma {:induction false} CrossHas(xs: seq<int>, n: int, bs: seq<int>, q: Pair)
    requires 0 <= n <= |xs|
    ensures q in Cross(xs, n, bs) <==> q.a in xs[..n] && q.b in bs
    decreases n
  {
    if n > 0 {
      CrossHas(xs, n - 1, bs, q);
      FanHas(xs[n - 1], bs, |bs|, q);
      assert bs[..|bs|] == bs;
      assert xs[..n] == xs[..n - 1] + [xs[n - 1]];
    }
  }

  /** The list the constructor builds for `p` on `sym`: empty when the second
      state has no list for the symbol. */
  function ProductList(table: Table, p: Pair, sym: string): seq<Pair> {
    var ra := Row(table, p.a);
    var rb := Row(table, p.b);
    if sym in ra && sym in rb then Cross(ra[sym], |ra[sym]|, rb[sym]) else []
  }

  /** The row of `p`: one list per symbol of its first state. */
  function ProductRow(table: Table, p: Pair): map<string, seq<Pair>> {
    map sym | sym in Row(table, p.a) :: ProductList(table, p, sym)
  }

  /** A product edge on `sym` moves both states along one of their lists for
      `sym`. */
  lemma ProductEdge(table: Table, p: Pair, sym: string, q: Pair)
    requires sym in Row(table, p.a)
    ensures q in ProductRow(table, p)[sym]
            <==> sym in Row(table, p.b) && q.a in Row(table, p.a)[sym] && q.b in Row(table, p.b)[sym]
  {
    if sym in Row(table, p.b) {
      CrossHas(Row(table, p.a)[sym], |Row(table, p.a)[sym]|, Row(table, p.b)[sym], q);
      assert Row(table, p.a)[sym][..|Row(table, p.a)[sym]|] == Row(table, p.a)[sym];
    }
  }

  /** A product edge leaves pairs reached together. */
  lemma StepTogether(table: Table, start: int, p: Pair, sym: string, q: Pair)
    requires Together(table, start, p) && sym in Row(table, p.a) && q in ProductRow(table, p)[sym]
    ensures Together(table, start, q)
  {
    ProductEdge(table, p, sym, q);
    var w :| p.a in Reached(table, start, w) && p.b in Reached(table, start, w);
    var w' := w + [sym];
    assert w'[..|w'| - 1] == w;
    assert q.a in Reached(table, start, w') && q.b in Reached(table, start, w');
  }

  /** What the product relies on of its NFA: the start state exists, the
      states with lists are those with configurations, and every listed
      destination is a state. */
  predicate ProductReady(configs: map<int, Configuration>, table: Table, start: int) {
    && start in table
    && table.Keys == configs.Keys
    && forall s, sym, d :: s in table && sym in table[s] && d in table[s][sym] ==> d in table
  }

  /** The pairs of states of the table. */
  ghost function Universe(table: Table): set<Pair> {
    set x, y | x in table && y in table :: Pair(x, y)
  }

  /** The pairs a row lists. */
  ghost function RowPairs(row: map<string, seq<Pair>>): set<Pair> {
    set sym, q | sym in row && q in row[sym] :: q
  }

  /** The pairs the rows list. */
  ghost function Targets(rows: Rows): set<Pair> {
    set p, sym, q | p in rows && sym in rows[p] && q in rows[p][sym] :: q
  }

  lemma RowPairsInUniverse(table: Table, start: int, configs: map<int, Configuration>, p: Pair)
    requires ProductReady(configs, table, start)
    ensures RowPairs(ProductRow(table, p)) <= Universe(table)
  {
    forall q | q in RowPairs(ProductRow(table, p))
      ensures q in Universe(table)
    {
      var sym :| sym in ProductRow(table, p) && q in ProductRow(table, p)[sym];
      ProductEdge(table, p, sym, q);
    }
  }

  // ---------------------------------------------------------------------------
  // The queue of the constructor

  /** The pairs of `list` the constructor queues, in order: each one not in
      `met` the first time the list names it. */
  function NewIn(met: set<Pair>, list: seq<Pair>): seq<Pair>
    decreases |list|
  {
    if list == [] then []
    else
      var init := list[..|list| - 1];
      var x := list[|list| - 1];
      NewIn(met, init) + (if x in met || x in init then [] else [x])
  }

  lemma NewInSnoc(met: set<Pair>, list: seq<Pair>, x: Pair)
    ensures NewIn(met, list + [x]) == NewIn(met, list) + (if x in met || x in list then [] else [x])
  {
    assert (list + [x])[..|list|] == list;
  }

  lemma ElementsSnoc<T>(list: seq<T>, x: T)
    ensures Elements(list + [x]) == Elements(list) + {x}
  {
  }

  lemma ElementsAppend<T>(xs: seq<T>, ys: seq<T>)
    ensures Elements(xs + ys) == Elements(xs) + Elements(ys)
  {
  }

  /** The queued pairs are the pairs of the list not met before, each queued
      once. */
  lemma {:induction false} NewInMeaning(met: set<Pair>, list: seq<Pair>)
    ensures Elements(NewIn(met, list)) == Elements(list) - met
    ensures |NewIn(met, list)| == |Elements(list) - met|
    decreases |list|
  {
    if list != [] {
      var init := list[..|list| - 1];
      var x := list[|list| - 1];
      var tail := if x in met || x in init then [] else [x];
      var queued := NewIn(met, init);
      assert NewIn(met, list) == queued + tail;
      assert Elements(list) == Elements(init) + {x} by {
        assert list == init + [x];
        ElementsSnoc(init, x);
      }
      assert Elements(NewIn(met, list)) == Elements(queued) + Elements(tail) by {
        ElementsAppend(queued, tail);
      }
      NewInMeaning(met, init);
      NewStep(met, Elements(init), x, Elements(queued), Elements(tail));
    }
  }

  lemma NewStep(met: set<Pair>, before: set<Pair>, x: Pair, queued: set<Pair>, tail: set<Pair>)
    requires queued == before - met
    requires tail == if x in met || x in before then {} else {x}
    ensures queued + tail == (before + {x}) - met
    ensures |queued + tail| == |queued| + |tail|
  {
    if tail != {} {
      assert x !in queued;
    }
  }

  /** Queuing from two lists one after the other queues from their
      concatenation. */
  lemma {:induction false} NewInAppend(met: set<Pair>, xs: seq<Pair>, ys: seq<Pair>)
    ensures NewIn(met, xs + ys) == NewIn(met, xs) + NewIn(met + Elements(xs), ys)
    decreases |ys|
  {
    if ys == [] {
      assert xs + ys == xs;
    } else {
      var init := ys[..|ys| - 1];
      var y := ys[|ys| - 1];
      NewInAppend(met, xs, init);
      assert ys == init + [y];
      assert xs + ys == (xs + init) + [y];
      NewInSnoc(met, xs + init, y);
      NewInSnoc(met + Elements(xs), init, y);
    }
  }

  // ---------------------------------------------------------------------------
  // The constructor

  /** The innermost loop of the constructor for one destination `destA`: the
      pair with each destination of the second state is appended to the list,
      and a pair not met before is also recorded and queued. */
  method FanOut(destA: int, destsB: seq<int>, list: seq<Pair>, met: set<Pair>, stateSet: set<Pair>, queue: seq<Pair>)
    returns (list': seq<Pair>, stateSet': set<Pair>, queue': seq<Pair>)
    requires stateSet == met + Elements(list)
    ensures list' == list + Fan(destA, destsB, |destsB|)
    ensures stateSet' == met + Elements(list')
    ensures queue' == queue + NewIn(met + Elements(list), Fan(destA, destsB, |destsB|))
  {
    list', stateSet', queue' := list, stateSet, queue;
    var j := 0;
    while j < |destsB|
      invariant 0 <= j <= |destsB|
      invariant Fanned(destA, destsB, j, list, met, queue, list', stateSet', queue')
    {
      var s2 := Pair(destA, destsB[j]);
      FanStep(destA, destsB, j, list, met, queue, list', stateSet', queue');
      if s2 !in stateSet' {
        list', stateSet', queue' := list' + [s2], stateSet' + {s2}, queue' + [s2];
      } else {
        list' := list' + [s2];
      }
      j := j + 1;
    }
  }

  /** The state of FanOut after the first `j` destinations. */
  ghost predicate Fanned(destA: int, destsB: seq<int>, j: int, list: seq<Pair>, met: set<Pair>, queue: seq<Pair>,
                         list': seq<Pair>, stateSet': set<Pair>, queue': seq<Pair>)
    requires 0 <= j <= |destsB|
  {
    && list' == list + Fan(destA, destsB, j)
    && stateSet' == met + Elements(list')
    && queue' == queue + NewIn(met + Elements(list), Fan(destA, destsB, j))
  }

  /** One pass of FanOut's loop keeps its state. */
  lemma FanStep(destA: int, destsB: seq<int>, j: int, list: seq<Pair>, met: set<Pair>, queue: seq<Pair>,
                list': seq<Pair>, stateSet': set<Pair>, queue': seq<Pair>)
    requires 0 <= j < |destsB| && Fanned(destA, destsB, j, list, met, queue, list', stateSet', queue')
    ensures var s2 := Pair(destA, destsB[j]);
            Fanned(destA, destsB, j + 1, list, met, queue, list' + [s2],
                   if s2 in stateSet' then stateSet' else stateSet' + {s2},
                   if s2 in stateSet' then queue' else queue' + [s2])
  {
    var s2 := Pair(destA, destsB[j]);
    var fan := Fan(destA, destsB, j);
    var before := met + Elements(list);
    assert Fan(destA, destsB, j + 1) == fan + [s2];
    NewInSnoc(before, fan, s2);
    assert s2 in stateSet' <==> s2 in before || s2 in fan by {
      ElementsAppend(list, fan);
    }
    if s2 !in stateSet' {
      Associative(queue, NewIn(before, fan), [s2]);
    } else {
      assert NewIn(before, fan) + [] == NewIn(before, fan);
    }
    Associative(list, fan, [s2]);
    ElementsSnoc(list', s2);
  }

  /** The loops of the constructor for one symbol of `s1`'s first state. */
  method ExpandSymbol(table: Table, s1: Pair, sym: string, stateSet: set<Pair>, queue: seq<Pair>)
    returns (list: seq<Pair>, stateSet': set<Pair>, queue': seq<Pair>)
    requires sym in Row(table, s1.a)
    ensures list == ProductList(table, s1, sym)
    ensures stateSet' == stateSet + Elements(list)
    ensures queue' == queue + NewIn(stateSet, list)
  {
    var destsA := Row(table, s1.a)[sym];
    list := [];
    stateSet' := stateSet;
    queue' := queue;
    var i := 0;
    while i < |destsA|
      invariant 0 <= i <= |destsA|
      invariant sym in Row(table, s1.b) ==> list == Cross(destsA, i, Row(table, s1.b)[sym])
      invariant sym !in Row(table, s1.b) ==> list == []
      invariant stateSet' == stateSet + Elements(list)
      invariant queue' == queue + NewIn(stateSet, list)
    {
      var destA := destsA[i];
      // the source skips `destA` when the second state has no list for `sym`
      if sym in Row(table, s1.b) {
        var destsB := Row(table, s1.b)[sym];
        ghost var before := list;
        list, stateSet', queue' := FanOut(destA, destsB, list, stateSet, stateSet', queue');
        NewInAppend(stateSet, before, Fan(destA, destsB, |destsB|));
        Associative(queue, NewIn(stateSet, before), NewIn(stateSet + Elements(before), Fan(destA, destsB, |destsB|)));
      }
      i := i + 1;
    }
  }

  lemma Associative<T>(xs: seq<T>, ys: seq<T>, zs: seq<T>)
    ensures xs + (ys + zs) == (xs + ys) + zs
  {
  }

  lemma RowPairsAdd(row: map<string, seq<Pair>>, sym: string, list: seq<Pair>)
    requires sym !in row
    ensures RowPairs(row[sym := list]) == RowPairs(row) + Elements(list)
  {
    var r := row[sym := list];
    forall q | q in RowPairs(r)
      ensures q in RowPairs(row) + Elements(list)
    {
      var s :| s in r && q in r[s];
      if s != sym {
        assert s in row && q in row[s];
      }
    }
    forall q | q in RowPairs(row)
      ensures q in RowPairs(r)
    {
      var s :| s in row && q in row[s];
      assert s in r && q in r[s];
    }
    forall q | q in Elements(list)
      ensures q in RowPairs(r)
    {
      assert sym in r && q in r[sym];
    }
  }

  /** Adding one symbol's list to a row keeps the row's pairs, the pairs met
      and the queue in step. */
  lemma RowGrows(row: map<string, seq<Pair>>, sym: string, list: seq<Pair>, all: seq<Pair>,
                 stateSet: set<Pair>, queue: seq<Pair>, met: set<Pair>, queued: seq<Pair>)
    requires sym !in row && Elements(all) == RowPairs(row)
    requires met == stateSet + Elements(all) && queued == queue + NewIn(stateSet, all)
    ensures Elements(all + list) == RowPairs(row[sym := list])
    ensures met + Elements(list) == stateSet + Elements(all + list)
    ensures queued + NewIn(met, list) == queue + NewIn(stateSet, all + list)
  {
    NewInAppend(stateSet, all, list);
    Associative(queue, NewIn(stateSet, all), NewIn(stateSet + Elements(all), list));
    ElementsAppend(all, list);
    RowPairsAdd(row, sym, list);
  }

  /** The loop of the constructor over the symbols of `s1`'s first state;
      `all` is the row's lists in the order they were built. */
  method ExpandPair(table: Table, s1: Pair, stateSet: set<Pair>, queue: seq<Pair>)
    returns (row: map<string, seq<Pair>>, stateSet': set<Pair>, queue': seq<Pair>, ghost all: seq<Pair>)
    ensures row == ProductRow(table, s1)
    ensures stateSet' == stateSet + RowPairs(row)
    ensures Elements(all) == RowPairs(row) && queue' == queue + NewIn(stateSet, all)
  {
    row := map[];
    stateSet' := stateSet;
    queue' := queue;
    all := [];
    var symbols := Row(table, s1.a).Keys;
    ghost var done: set<string> := {};
    while symbols != {}
      invariant done == Row(table, s1.a).Keys - symbols && symbols <= Row(table, s1.a).Keys
      invariant row.Keys == done && forall sym :: sym in row ==> row[sym] == ProductList(table, s1, sym)
      invariant Elements(all) == RowPairs(row) && stateSet' == stateSet + Elements(all)
      invariant queue' == queue + NewIn(stateSet, all)
      decreases |symbols|
    {
      var symbol := Pick(symbols);
      var list, s', q' := ExpandSymbol(table, s1, symbol, stateSet', queue');
      RowGrows(row, symbol, list, all, stateSet, queue, stateSet', queue');
      row := row[symbol := list];
      stateSet', queue' := s', q';
      all := all + list;
      Take(Row(table, s1.a).Keys, symbols, done, symbol);
      symbols := symbols - {symbol};
      done := done + {symbol};
    }
  }

  lemma TargetsAdd(rows: Rows, p: Pair, row: map<string, seq<Pair>>)
    requires p in rows ==> rows[p] == row
    ensures Targets(rows[p := row]) == Targets(rows) + RowPairs(row)
  {
    var r := rows[p := row];
    forall q | q in Targets(r)
      ensures q in Targets(rows) + RowPairs(row)
    {
      var p', sym :| p' in r && sym in r[p'] && q in r[p'][sym];
      if p' != p {
        assert p' in rows && sym in rows[p'] && q in rows[p'][sym];
      }
    }
    forall q | q in Targets(rows)
      ensures q in Targets(r)
    {
      var p', sym :| p' in rows && sym in rows[p'] && q in rows[p'][sym];
      assert p' in r && sym in r[p'] && q in r[p'][sym];
    }
    forall q | q in RowPairs(row)
      ensures q in Targets(r)
    {
      var sym :| sym in row && q in row[sym];
      assert p in r && sym in r[p] && q in r[p][sym];
    }
  }

  /** The pairs a product row lists are reached together when its pair is. */
  lemma RowTogether(table: Table, start: int, p: Pair)
    requires Together(table, start, p)
    ensures forall q :: q in RowPairs(ProductRow(table, p)) ==> Together(table, start, q)
  {
    forall q | q in RowPairs(ProductRow(table, p))
      ensures Together(table, start, q)
    {
      var sym :| sym in ProductRow(table, p) && q in ProductRow(table, p)[sym];
      StepTogether(table, start, p, sym, q);
    }
  }

  lemma RootTogether(table: Table, start: int)
    ensures Together(table, start, Pair(start, start))
  {
    assert start in Reached(table, start, []);
  }

  /** Rows that hold the root and the pairs they list hold every pair reached
      together. */
  lemma {:induction false} ReachedInRows(table: Table, start: int, rows: Rows, w: seq<string>)
    requires Pair(start, start) in rows && Targets(rows) <= rows.Keys
    requires forall p :: p in rows ==> rows[p] == ProductRow(table, p)
    ensures forall x, y :: x in Reached(table, start, w) && y in Reached(table, start, w) ==> Pair(x, y) in rows
    decreases |w|
  {
    if w != [] {
      var init := w[..|w| - 1];
      var sym := w[|w| - 1];
      ReachedInRows(table, start, rows, init);
      forall x, y | x in Reached(table, start, w) && y in Reached(table, start, w)
        ensures Pair(x, y) in rows
      {
        var x0 :| x0 in Reached(table, start, init) && x0 in table && sym in table[x0] && x in table[x0][sym];
        var y0 :| y0 in Reached(table, start, init) && y0 in table && sym in table[y0] && y in table[y0][sym];
        var p := Pair(x0, y0);
        ProductEdge(table, p, sym, Pair(x, y));
        assert p in rows && sym in rows[p] && Pair(x, y) in rows[p][sym];
      }
    }
  }

  lemma TogetherInRows(table: Table, start: int, rows: Rows, p: Pair)
    requires Pair(start, start) in rows && Targets(rows) <= rows.Keys
    requires forall p :: p in rows ==> rows[p] == ProductRow(table, p)
    requires Together(table, start, p)
    ensures p in rows
  {
    var w :| p.a in Reached(table, start, w) && p.b in Reached(table, start, w);
    ReachedInRows(table, start, rows, w);
  }

  lemma AllTogetherInRows(table: Table, start: int, rows: Rows)
    requires Pair(start, start) in rows && Targets(rows) <= rows.Keys
    requires forall p :: p in rows ==> rows[p] == ProductRow(table, p)
    ensures forall p :: Together(table, start, p) ==> p in rows
  {
    forall p | Together(table, start, p)
      ensures p in rows
    {
      TogetherInRows(table, start, rows, p);
    }
  }

  /** The rows the constructor leaves: one per pair reached together, each
      the product row of its pair; `stateSet` holds the pairs the rows list. */
  ghost predicate Explored(table: Table, start: int, stateSet: set<Pair>, rows: Rows) {
    && (forall p :: p in rows <==> Together(table, start, p))
    && (forall p :: p in rows ==> rows[p] == ProductRow(table, p))
    && stateSet == Targets(rows)
  }

  lemma SliceAppend<T>(xs: seq<T>, ys: seq<T>, k: int)
    requires 0 <= k <= |xs|
    ensures (xs + ys)[k..] == xs[k..] + ys
    ensures (xs + ys)[..k] == xs[..k]
  {
  }

  /** The queue step of the constructor's loop: the pairs queued from `s1`'s
      row extend the order in which pairs are expanded. */
  lemma QueueStep(root: Pair, met: seq<Pair>, all: seq<Pair>, order: seq<Pair>, head: int, queue: seq<Pair>)
    requires order == [root] + NewIn({}, met) && 0 <= head < |order| && queue == order[head..]
    ensures order + NewIn(Elements(met), all) == [root] + NewIn({}, met + all)
    ensures queue[1..] + NewIn(Elements(met), all) == (order + NewIn(Elements(met), all))[head + 1..]
    ensures (order + NewIn(Elements(met), all))[..head + 1] == order[..head] + [queue[0]]
  {
    NewInAppend({}, met, all);
    assert {} + Elements(met) == Elements(met);
    Associative([root], NewIn({}, met), NewIn(Elements(met), all));
    SliceAppend(order, NewIn(Elements(met), all), head + 1);
    assert order[head..][1..] == order[head + 1..];
    assert order[..head + 1] == order[..head] + [order[head]];
  }

  /** A queued pair is the root or a recorded one. */
  lemma Queued(root: Pair, met: seq<Pair>, order: seq<Pair>, head: int)
    requires order == [root] + NewIn({}, met) && 0 <= head < |order|
    ensures order[head] == root || order[head] in Elements(met)
  {
    NewInMeaning({}, met);
    if head > 0 {
      assert order[head] == NewIn({}, met)[head - 1];
    }
  }

  /** The measure of the constructor's loop goes down: either more pairs are
      recorded, or none is and the queue is one shorter. */
  lemma Shrinks(universe: set<Pair>, oldSet: set<Pair>, newSet: set<Pair>, oldQueue: seq<Pair>, newQueue: seq<Pair>)
    requires oldSet <= newSet <= universe
    requires newSet == oldSet ==> |newQueue| == |oldQueue|
    ensures |universe - newSet| < |universe - oldSet| || (|universe - newSet| == |universe - oldSet| && |newQueue| == |oldQueue|)
  {
    if newSet != oldSet {
      var x :| x in newSet && x !in oldSet;
      var d := (universe - oldSet) - (universe - newSet);
      assert x in d;
      assert universe - oldSet == (universe - newSet) + d;
      assert |universe - oldSet| == |universe - newSet| + |d|;
    }
  }

  /** The invariant of the constructor's loop. `met` lists, in order, the
      pairs the rows met so far; `order` lists the pairs queued (the root, then
      each pair met for the first time), of which the first `head` have been
      expanded and the rest are the queue. */
  ghost predicate Exploring(table: Table, start: int, root: Pair, met: seq<Pair>, order: seq<Pair>, head: int,
                            queue: seq<Pair>, stateSet: set<Pair>, rows: Rows) {
    && root == Pair(start, start) && Together(table, start, root)
    && 0 <= head <= |order| && queue == order[head..]
    && order == [root] + NewIn({}, met)
    && stateSet == Elements(met) && stateSet <= Universe(table)
    && rows.Keys == Elements(order[..head])
    && (forall p :: p in rows ==> rows[p] == ProductRow(table, p))
    && Targets(rows) == stateSet
    && (forall p :: p in stateSet ==> Together(table, start, p))
  }

  /** One turn of the constructor's loop keeps its invariant, and either
      records a new pair or shortens the queue. */
  lemma ExploreStep(configs: map<int, Configuration>, table: Table, start: int, root: Pair, met: seq<Pair>,
                    order: seq<Pair>, head: int, queue: seq<Pair>, stateSet: set<Pair>, rows: Rows,
                    row: map<string, seq<Pair>>, all: seq<Pair>)
    requires ProductReady(configs, table, start)
    requires Exploring(table, start, root, met, order, head, queue, stateSet, rows) && queue != []
    requires row == ProductRow(table, queue[0]) && Elements(all) == RowPairs(row)
    ensures Exploring(table, start, root, met + all, order + NewIn(stateSet, all), head + 1,
                      queue[1..] + NewIn(stateSet, all), stateSet + RowPairs(row), rows[queue[0] := row])
  {
    var s1 := queue[0];
    var added := NewIn(stateSet, all);
    var met', order', head', queue', set', rows' := met + all, order + added, head + 1,
      queue[1..] + added, stateSet + RowPairs(row), rows[s1 := row];
    assert order' == [root] + NewIn({}, met') && order'[head'..] == queue' && order'[..head'] == order[..head] + [s1] by {
      QueueStep(root, met, all, order, head, queue);
    }
    assert set' == Elements(met') && set' <= Universe(table) by {
      ElementsAppend(met, all);
      RowPairsInUniverse(table, start, configs, s1);
    }
    assert rows'.Keys == Elements(order'[..head']) by {
      ElementsSnoc(order[..head], s1);
    }
    assert forall p :: p in rows' ==> rows'[p] == ProductRow(table, p) by {
      RowsAdd(table, rows, s1, row);
    }
    assert Targets(rows') == set' by {
      TargetsAdd(rows, s1, row);
    }
    assert forall p :: p in set' ==> Together(table, start, p) by {
      Queued(root, met, order, head);
      RowTogether(table, start, s1);
    }
  }

  /** The measure of the constructor's loop goes down in one turn. */
  lemma ExploreShrinks(universe: set<Pair>, stateSet: set<Pair>, all: seq<Pair>, queue: seq<Pair>)
    requires stateSet + Elements(all) <= universe && queue != []
    ensures || |universe - (stateSet + Elements(all))| < |universe - stateSet|
            || (|universe - (stateSet + Elements(all))| == |universe - stateSet| && |queue[1..] + NewIn(stateSet, all)| < |queue|)
  {
    NewInMeaning(stateSet, all);
    Shrinks(universe, stateSet, stateSet + Elements(all), queue[1..], queue[1..] + NewIn(stateSet, all));
  }

  lemma RowsAdd(table: Table, rows: Rows, p: Pair, row: map<string, seq<Pair>>)
    requires forall q :: q in rows ==> rows[q] == ProductRow(table, q)
    requires row == ProductRow(table, p)
    ensures forall q :: q in rows[p := row] ==> rows[p := row][q] == ProductRow(table, q)
  {
  }

  /** The queued pairs are the root and each pair met, once. */
  lemma OrderCount(root: Pair, met: seq<Pair>, order: seq<Pair>)
    requires order == [root] + NewIn({}, met)
    ensures |order| == 1 + |Elements(met)| && Elements(order) == {root} + Elements(met)
  {
    NewInMeaning({}, met);
    ElementsAppend([root], NewIn({}, met));
    assert Elements([root]) == {root};
    assert Elements(met) - {} == Elements(met);
  }

  /** When the queue is empty, the rows hold exactly the pairs reached
      together. */
  lemma ExploreDone(table: Table, start: int, root: Pair, met: seq<Pair>, order: seq<Pair>, head: int,
                    queue: seq<Pair>, stateSet: set<Pair>, rows: Rows)
    requires Exploring(table, start, root, met, order, head, queue, stateSet, rows) && queue == []
    ensures Explored(table, start, stateSet, rows)
    ensures |order| == 1 + |stateSet| && Elements(order) == {root} + stateSet
  {
    assert order[..head] == order by {
      assert |order[head..]| == 0;
    }
    assert |order| == 1 + |stateSet| && Elements(order) == {root} + stateSet by {
      OrderCount(root, met, order);
    }
    assert Targets(rows) <= rows.Keys;
    assert forall p :: p in rows ==> Together(table, start, p);
    assert forall p :: Together(table, start, p) ==> p in rows by {
      AllTogetherInRows(table, start, rows);
    }
  }

  /** The constructor's search: from the root (start, start), expand the
      queued pairs one at a time, recording and queuing each pair met for the
      first time. `expansions` lists the pairs in the order they were
      expanded: the root, then each recorded pair once (the root is not
      recorded when the search starts, so it is expanded a second time if a
      row lists it). */
  method Explore(configs: map<int, Configuration>, table: Table, start: int)
    returns (stateSet: set<Pair>, rows: Rows, ghost expansions: seq<Pair>)
    requires ProductReady(configs, table, start)
    ensures Explored(table, start, stateSet, rows)
    ensures |expansions| == 1 + |stateSet| && expansions[0] == Pair(start, start)
    ensures Elements(expansions) == {Pair(start, start)} + stateSet
  {
    var root := Pair(start, start);
    stateSet := {};
    rows := map[];
    var queue := [root];
    ghost var met: seq<Pair> := [];
    ghost var order := [root];
    ghost var head := 0;
    RootTogether(table, start);
    while queue != []
      invariant Exploring(table, start, root, met, order, head, queue, stateSet, rows)
      decreases |Universe(table) - stateSet|, |queue|
    {
      var s1 := queue[0];
      ghost var before := queue;
      queue := queue[1..];
      var row, s', q', all := ExpandPair(table, s1, stateSet, queue);
      ExploreStep(configs, table, start, root, met, order, head, before, stateSet, rows, row, all);
      ExploreShrinks(Universe(table), stateSet, all, before);
      rows := rows[s1 := row];
      order := order + NewIn(stateSet, all);
      head := head + 1;
      met := met + all;
      stateSet, queue := s', q';
    }
    ExploreDone(table, start, root, met, order, head, queue, stateSet, rows);
    expansions := order;
  }
}
