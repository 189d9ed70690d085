/** The string matcher of the NFA (getNextMergedState and tryMatch, the same in
    both generations): an on-the-fly subset construction over the NFA's
    transition lists. The NFA side is stated on the lists by id; the NCA side
    on sets of configurations. An unfolded NFA accepts exactly the inputs its
    NCA accepts. */
module Matching {
  import opened Util
  import opened Configurations
  import opened SetBuilder
  import opened GlushkovSets
  import opened Ncas
  import opened NfaSearch

  // ---------------------------------------------------------------------------
  // checkForCharacterMatch

  /** The characters `.` does not match in a java.util.regex pattern. */
  predicate LineTerminator(c: char) {
    c == '\n' || c == '\r' || c == '\U{0085}' || c == '\U{2028}' || c == '\U{2029}'
  }

  /** No line terminator in `s[lo..hi]`: what `.*` there matches. */
  predicate AnyRun(s: string, lo: int, hi: int)
    requires 0 <= lo <= hi <= |s|
  {
    forall i :: lo <= i < hi ==> !LineTerminator(s[i])
  }

  /** The whole symbol matches `\.|\[.*-.*]|\[.*]|\\.`: the dot, a bracketed
      range, a bracketed class, or a backslash and one more character. */
  predicate IsClassSymbol(symbol: string) {
    || symbol == "."
    || (&& |symbol| >= 3 && symbol[0] == '[' && symbol[|symbol| - 1] == ']'
        && exists j :: 1 <= j < |symbol| - 1 && symbol[j] == '-' && AnyRun(symbol, 1, j) && AnyRun(symbol, j + 1, |symbol| - 1))
    || (|symbol| >= 2 && symbol[0] == '[' && symbol[|symbol| - 1] == ']' && AnyRun(symbol, 1, |symbol| - 1))
    || (|symbol| == 2 && symbol[0] == '\\' && !LineTerminator(symbol[1]))
  }

  /** checkForCharacterMatch: a class symbol is handed to the regex engine,
      here the parameter `classMatch`; any other symbol must be the character
      itself. */
  predicate CharMatches(symbol: string, c: char, classMatch: (string, char) -> bool) {
    if IsClassSymbol(symbol) then classMatch(symbol, c) else symbol == [c]
  }

  /** A symbol that is a single character other than `.` and `\` is literal:
      it matches that character and no other, whatever the engine does. */
  lemma LiteralSymbol(x: char, c: char, classMatch: (string, char) -> bool)
    requires x != '.' && x != '\\'
    ensures !IsClassSymbol([x])
    ensures CharMatches([x], c, classMatch) <==> x == c
  {
  }

  // ---------------------------------------------------------------------------
  // The NFA side

  /** The transition lists of a state by symbol (a state the table does not
      know has none). */
  function Row(table: map<int, map<string, seq<int>>>, s: int): map<string, seq<int>> {
    if s in table then table[s] else map[]
  }

  /** The destinations listed under the symbols `syms` of `row` that match `c`. */
  function RowTargets(row: map<string, seq<int>>, syms: set<string>, c: char, classMatch: (string, char) -> bool): set<int> {
    set sym, d | sym in syms && sym in row && CharMatches(sym, c, classMatch) && d in row[sym] :: d
  }

  /** getNextMergedState: every destination of a matching symbol of an active
      state. */
  function NextMerged(table: map<int, map<string, seq<int>>>, ms: set<int>, c: char,
                      classMatch: (string, char) -> bool): set<int> {
    set s, sym, d | s in ms && s in table && sym in table[s] && CharMatches(sym, c, classMatch) && d in table[s][sym] :: d
  }

  /** The active states after reading `input` from `ms`, one character at a
      time from the left. */
  function ActiveAfter(table: map<int, map<string, seq<int>>>, ms: set<int>, input: string,
                       classMatch: (string, char) -> bool): set<int>
    decreases |input|
  {
    if input == [] then ms else ActiveAfter(table, NextMerged(table, ms, input[0], classMatch), input[1..], classMatch)
  }

  /** tryMatch: the active states after the whole input meet the final states. */
  predicate Accepts(table: map<int, map<string, seq<int>>>, startID: int, finals: set<int>, input: string,
                    classMatch: (string, char) -> bool) {
    exists s :: s in ActiveAfter(table, {startID}, input, classMatch) && s in finals
  }

  /** Visiting one more active state adds the matching destinations of its row. */
  lemma NextMergedOneMore(table: map<int, map<string, seq<int>>>, ms: set<int>, s: int, c: char,
                          classMatch: (string, char) -> bool)
    ensures NextMerged(table, ms + {s}, c, classMatch)
            == NextMerged(table, ms, c, classMatch) + RowTargets(Row(table, s), Row(table, s).Keys, c, classMatch)
  {
    var row := Row(table, s);
    var lhs := NextMerged(table, ms + {s}, c, classMatch);
    var rhs := NextMerged(table, ms, c, classMatch) + RowTargets(row, row.Keys, c, classMatch);
    forall d | d in lhs ensures d in rhs {
      var s', sym :| s' in ms + {s} && s' in table && sym in table[s'] && CharMatches(sym, c, classMatch) && d in table[s'][sym];
      if s' != s {
        assert d in NextMerged(table, ms, c, classMatch);
      }
    }
    forall d | d in rhs ensures d in lhs {
      if d !in NextMerged(table, ms, c, classMatch) {
        var sym :| sym in row.Keys && sym in row && CharMatches(sym, c, classMatch) && d in row[sym];
        assert s in table;
      }
    }
  }

  /** Visiting one more symbol of a row adds its list if the symbol matches. */
  lemma RowTargetsOneMore(row: map<string, seq<int>>, syms: set<string>, sym: string, c: char,
                          classMatch: (string, char) -> bool)
    requires sym in row
    ensures RowTargets(row, syms + {sym}, c, classMatch)
            == RowTargets(row, syms, c, classMatch) + (if CharMatches(sym, c, classMatch) then Elements(row[sym]) else {})
  {
    var lhs := RowTargets(row, syms + {sym}, c, classMatch);
    var rhs := RowTargets(row, syms, c, classMatch) + (if CharMatches(sym, c, classMatch) then Elements(row[sym]) else {});
    forall d | d in lhs ensures d in rhs {
      var sym' :| sym' in syms + {sym} && sym' in row && CharMatches(sym', c, classMatch) && d in row[sym'];
      if sym' != sym {
        assert d in RowTargets(row, syms, c, classMatch);
      }
    }
    forall d | d in rhs ensures d in lhs {
      if d !in RowTargets(row, syms, c, classMatch) {
        assert d in row[sym];
      }
    }
  }

  /** The elements of a list: what Set.addAll adds. */
  function Elements<T>(list: seq<T>): set<T> {
    set x | x in list
  }

  /** Reading nothing more leaves the active states as they are, and reading
      one more character takes one merged step. */
  lemma {:induction false} ActiveAfterSnoc(table: map<int, map<string, seq<int>>>, ms: set<int>, input: string, c: char,
                                           classMatch: (string, char) -> bool)
    ensures ActiveAfter(table, ms, input + [c], classMatch)
            == NextMerged(table, ActiveAfter(table, ms, input, classMatch), c, classMatch)
    decreases |input|
  {
    if input == [] {
      assert input + [c] == [c];
      assert [c][1..] == [];
    } else {
      assert (input + [c])[0] == input[0];
      assert (input + [c])[1..] == input[1..] + [c];
      ActiveAfterSnoc(table, NextMerged(table, ms, input[0], classMatch), input[1..], c, classMatch);
    }
  }

  // ---------------------------------------------------------------------------
  // The NCA side

  /** The configurations the NCA moves to from `cs` on a character: every
      successor, on a matching symbol, of a configuration of `cs`. */
  ghost function NcaNext(v: seq<StateView>, cs: set<Configuration>, c: char, classMatch: (string, char) -> bool): set<Configuration>
    requires ViewWellFormed(v)
  {
    set x, sym, d | x in cs && 0 <= x.state < |v| && sym in v[x.state].transitions && CharMatches(sym, c, classMatch)
                    && Moves(v, x, sym).Some? && d in Moves(v, x, sym).value :: d
  }

  /** The configurations of the NCA after reading `input` from `cs`. */
  ghost function NcaActive(v: seq<StateView>, cs: set<Configuration>, input: string, classMatch: (string, char) -> bool): set<Configuration>
    requires ViewWellFormed(v)
    decreases |input|
  {
    if input == [] then cs else NcaActive(v, NcaNext(v, cs, input[0], classMatch), input[1..], classMatch)
  }

  /** The NCA accepts `input`: from the root configuration it can read the
      input and end in a configuration the finalization function accepts. */
  ghost predicate NcaAccepts(v: seq<StateView>, input: string, classMatch: (string, char) -> bool)
    requires ViewWellFormed(v)
  {
    exists c :: c in NcaActive(v, {RootConfig}, input, classMatch) && 0 <= c.state < |v| && Finalization(v, c) == Ok(true)
  }

  // ---------------------------------------------------------------------------
  // The NFA simulates the NCA

  /** The configurations of the states `ms`. */
  function Image(configs: map<int, Configuration>, ms: set<int>): set<Configuration> {
    set k | k in ms && k in configs :: configs[k]
  }

  /** What the matcher needs of an unfolded NFA: each state's row lists, for
      each symbol of its NCA state, exactly the successor configurations, and a
      state is final exactly when finalization accepts its configuration. */
  ghost predicate Simulates(v: seq<StateView>, gen: Generation, configs: map<int, Configuration>,
                            rows: map<int, map<string, seq<int>>>, finals: set<int>)
    requires ViewWellFormed(v)
  {
    && rows.Keys == configs.Keys
    && (forall k :: k in configs ==> 0 <= configs[k].state < |v|)
    && (forall k :: k in configs ==> Expanded(v, gen, configs, configs[k], rows[k]))
    && (forall k :: k in finals <==> k in configs && Finalization(v, configs[k]) == Ok(true))
  }

  lemma UnfoldedSimulates(v: seq<StateView>, gen: Generation, startID: int, configs: map<int, Configuration>,
                          rows: map<int, map<string, seq<int>>>, finals: set<int>)
    requires ViewWellFormed(v) && Unfolded(v, gen, startID, configs, rows, finals)
    ensures Simulates(v, gen, configs, rows, finals)
    ensures startID in configs && configs[startID] == RootConfig
  {
  }

  /** A destination listed in the row of state `s` is a state whose
      configuration is a successor of `s`'s on that symbol. */
  lemma Listed(v: seq<StateView>, gen: Generation, configs: map<int, Configuration>,
               rows: map<int, map<string, seq<int>>>, finals: set<int>, s: int, sym: string, d: int)
    requires ViewWellFormed(v) && Simulates(v, gen, configs, rows, finals)
    requires s in configs && sym in rows[s] && d in rows[s][sym]
    ensures sym in v[configs[s].state].transitions && Moves(v, configs[s], sym).Some?
    ensures d in configs && configs[d] in Moves(v, configs[s], sym).value
  {
    var c := configs[s];
    assert Expanded(v, gen, configs, c, rows[s]);
    var list := rows[s][sym];
    assert RowMatches(v, gen, configs, c, sym, list);
    var i :| 0 <= i < |list| && list[i] == d;
  }

  /** A successor of `s`'s configuration is the configuration of a state
      listed in `s`'s row. */
  lemma Lists(v: seq<StateView>, gen: Generation, configs: map<int, Configuration>,
              rows: map<int, map<string, seq<int>>>, finals: set<int>, s: int, sym: string, e: Configuration)
    requires ViewWellFormed(v) && Simulates(v, gen, configs, rows, finals)
    requires s in configs && sym in v[configs[s].state].transitions
    requires Moves(v, configs[s], sym).Some? && e in Moves(v, configs[s], sym).value
    ensures sym in rows[s] && exists d :: d in rows[s][sym] && d in configs && configs[d] == e
  {
    var c := configs[s];
    assert Expanded(v, gen, configs, c, rows[s]);
    var list := rows[s][sym];
    assert RowMatches(v, gen, configs, c, sym, list);
    assert Names(configs, list, e);
    var i :| 0 <= i < |list| && list[i] in configs && configs[list[i]] == e;
    var d := list[i];
    assert d in list && d in configs && configs[d] == e;
  }

  /** One merged step of the NFA is one step of the NCA on the configurations. */
  lemma StepAgrees(v: seq<StateView>, gen: Generation, configs: map<int, Configuration>,
                   rows: map<int, map<string, seq<int>>>, finals: set<int>, ms: set<int>, c: char,
                   classMatch: (string, char) -> bool)
    requires ViewWellFormed(v) && Simulates(v, gen, configs, rows, finals) && ms <= configs.Keys
    ensures NextMerged(rows, ms, c, classMatch) <= configs.Keys
    ensures Image(configs, NextMerged(rows, ms, c, classMatch)) == NcaNext(v, Image(configs, ms), c, classMatch)
  {
    StepSound(v, gen, configs, rows, finals, ms, c, classMatch);
    StepComplete(v, gen, configs, rows, finals, ms, c, classMatch);
  }

  /** Every state the merged step reaches carries a successor configuration. */
  lemma StepSound(v: seq<StateView>, gen: Generation, configs: map<int, Configuration>,
                  rows: map<int, map<string, seq<int>>>, finals: set<int>, ms: set<int>, c: char,
                  classMatch: (string, char) -> bool)
    requires ViewWellFormed(v) && Simulates(v, gen, configs, rows, finals) && ms <= configs.Keys
    ensures NextMerged(rows, ms, c, classMatch) <= configs.Keys
    ensures Image(configs, NextMerged(rows, ms, c, classMatch)) <= NcaNext(v, Image(configs, ms), c, classMatch)
  {
    var next := NextMerged(rows, ms, c, classMatch);
    var cs := Image(configs, ms);
    var after := NcaNext(v, cs, c, classMatch);
    forall d | d in next ensures d in configs && configs[d] in after {
      var s, sym :| s in ms && s in rows && sym in rows[s] && CharMatches(sym, c, classMatch) && d in rows[s][sym];
      Listed(v, gen, configs, rows, finals, s, sym, d);
      InNcaNext(v, cs, c, classMatch, configs[s], sym, configs[d]);
    }
    ImageWithin(configs, next, after);
  }

  /** A successor on a matching symbol of a configuration of `cs` is in the
      NCA's next set. */
  lemma InNcaNext(v: seq<StateView>, cs: set<Configuration>, c: char, classMatch: (string, char) -> bool,
                  x: Configuration, sym: string, e: Configuration)
    requires ViewWellFormed(v) && x in cs && 0 <= x.state < |v| && sym in v[x.state].transitions
    requires CharMatches(sym, c, classMatch) && Moves(v, x, sym).Some? && e in Moves(v, x, sym).value
    ensures e in NcaNext(v, cs, c, classMatch)
  {
  }

  lemma ImageWithin(configs: map<int, Configuration>, ms: set<int>, s: set<Configuration>)
    requires forall k :: k in ms && k in configs ==> configs[k] in s
    ensures Image(configs, ms) <= s
  {
  }

  /** Every successor configuration is carried by a state the merged step
      reaches. */
  lemma StepComplete(v: seq<StateView>, gen: Generation, configs: map<int, Configuration>,
                     rows: map<int, map<string, seq<int>>>, finals: set<int>, ms: set<int>, c: char,
                     classMatch: (string, char) -> bool)
    requires ViewWellFormed(v) && Simulates(v, gen, configs, rows, finals) && ms <= configs.Keys
    ensures NcaNext(v, Image(configs, ms), c, classMatch) <= Image(configs, NextMerged(rows, ms, c, classMatch))
  {
    var next := NextMerged(rows, ms, c, classMatch);
    var cs := Image(configs, ms);
    forall e | e in NcaNext(v, cs, c, classMatch) ensures e in Image(configs, next) {
      var x, sym :| x in cs && 0 <= x.state < |v| && sym in v[x.state].transitions && CharMatches(sym, c, classMatch)
                    && Moves(v, x, sym).Some? && e in Moves(v, x, sym).value;
      var s :| s in ms && s in configs && configs[s] == x;
      Lists(v, gen, configs, rows, finals, s, sym, e);
      var d :| d in rows[s][sym] && d in configs && configs[d] == e;
      assert d in next;
    }
  }

  /** Reading a whole input, the NFA's active states are the NCA's
      configurations. */
  lemma {:induction false} ActiveAgrees(v: seq<StateView>, gen: Generation, configs: map<int, Configuration>,
                                        rows: map<int, map<string, seq<int>>>, finals: set<int>, ms: set<int>,
                                        input: string, classMatch: (string, char) -> bool)
    requires ViewWellFormed(v) && Simulates(v, gen, configs, rows, finals) && ms <= configs.Keys
    ensures ActiveAfter(rows, ms, input, classMatch) <= configs.Keys
    ensures Image(configs, ActiveAfter(rows, ms, input, classMatch)) == NcaActive(v, Image(configs, ms), input, classMatch)
    decreases |input|
  {
    if input != [] {
      StepAgrees(v, gen, configs, rows, finals, ms, input[0], classMatch);
      ActiveAgrees(v, gen, configs, rows, finals, NextMerged(rows, ms, input[0], classMatch), input[1..], classMatch);
    }
  }

  /** tryMatch on an unfolded NFA answers whether the NCA accepts the input,
      in both generations: the duplicate entries of the automata generation do
      not change the merged sets. */
  lemma TryMatchAgrees(v: seq<StateView>, gen: Generation, startID: int, configs: map<int, Configuration>,
                       rows: map<int, map<string, seq<int>>>, finals: set<int>, input: string,
                       classMatch: (string, char) -> bool)
    requires ViewWellFormed(v) && Unfolded(v, gen, startID, configs, rows, finals)
    ensures Accepts(rows, startID, finals, input, classMatch) <==> NcaAccepts(v, input, classMatch)
  {
    UnfoldedSimulates(v, gen, startID, configs, rows, finals);
    assert Image(configs, {startID}) == {RootConfig};
    ActiveAgrees(v, gen, configs, rows, finals, {startID}, input, classMatch);
    var active := ActiveAfter(rows, {startID}, input, classMatch);
    if Accepts(rows, startID, finals, input, classMatch) {
      var s :| s in active && s in finals;
      assert configs[s] in Image(configs, active);
    }
    if NcaAccepts(v, input, classMatch) {
      var c :| c in NcaActive(v, {RootConfig}, input, classMatch) && 0 <= c.state < |v| && Finalization(v, c) == Ok(true);
      var s :| s in active && s in configs && configs[s] == c;
      assert s in finals;
    }
  }

  /** The two generations' NFAs of one NCA accept the same inputs. */
  lemma GenerationsAgree(v: seq<StateView>, startID: int, configs: map<int, Configuration>,
                         rows: map<int, map<string, seq<int>>>, finals: set<int>,
                         startID': int, configs': map<int, Configuration>,
                         rows': map<int, map<string, seq<int>>>, finals': set<int>,
                         input: string, classMatch: (string, char) -> bool)
    requires ViewWellFormed(v)
    requires Unfolded(v, NcaGeneration, startID, configs, rows, finals)
    requires Unfolded(v, AutomataGeneration, startID', configs', rows', finals')
    ensures Accepts(rows, startID, finals, input, classMatch) <==> Accepts(rows', startID', finals', input, classMatch)
  {
    TryMatchAgrees(v, NcaGeneration, startID, configs, rows, finals, input, classMatch);
    TryMatchAgrees(v, AutomataGeneration, startID', configs', rows', finals', input, classMatch);
  }

  /** The empty input is accepted exactly when the start state is final, that
      is, for the NCA built from the sets of a regex, exactly when the regex is
      nullable. */
  lemma EmptyInput(sat: SetsAndTokens, edges: set<Edge>, gen: Generation, startID: int, configs: map<int, Configuration>,
                   rows: map<int, map<string, seq<int>>>, finals: set<int>, classMatch: (string, char) -> bool)
    requires WellFormed(sat.sets)
    requires ViewWellFormed(SpecView(sat, edges)) && Unfolded(SpecView(sat, edges), gen, startID, configs, rows, finals)
    ensures Accepts(rows, startID, finals, "", classMatch) <==> Nullable(sat.sets)
  {
    var v := SpecView(sat, edges);
    UnfoldedSimulates(v, gen, startID, configs, rows, finals);
    assert v[0].notes == SlotNotes(sat, 0) && v[0].isFinal == SlotFinal(sat, 0);
    assert Finalization(v, RootConfig) == Ok(|sat.sets.l| > 0);
    if Nullable(sat.sets) {
      assert startID in finals;
    }
    if |sat.sets.l| > 0 {
      var x :| x in sat.sets.l;
    }
  }
}
