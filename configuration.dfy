/** Configurations of the NCA: a state together with the current counter values.
    They are the states of the unfolded NFA, and the two generations use them as
    the key that merges equal configurations (`Configuration` in the `nca`
    package, `NfaStateShim` in the `automata` package). A state is named by its
    id, which is what NcaState.equals compares. */
module Configurations {
  import opened Util

  /** Configuration.equals compares the state and the counter map, the two
      fields here, so value equality is the source's equality. */
  datatype Configuration = Configuration(state: int, counterValues: map<int, int>)

  /** The shim of the `automata` package: a placeholder NFA state with id -1.
      NfaStateShim.equals ignores the id, and every shim has id -1. */
  datatype NfaStateShim = NfaStateShim(id: int, ncaState: int, counterVals: map<int, int>)

  const ShimId: int := -1

  /** new NfaStateShim(ncaState, counterVals). */
  function MakeShim(ncaState: int, counterVals: map<int, int>): (s: NfaStateShim)
    ensures s.id == ShimId && s.ncaState == ncaState && s.counterVals == counterVals
  {
    NfaStateShim(ShimId, ncaState, counterVals)
  }

  // ---------------------------------------------------------------------------
  // toString and shimString

  /** `cK=V, ` for each counter id in `order`: the StringBuilder after the loop,
      without its opening bracket. */
  function Entries(order: seq<int>, m: map<int, int>): string
    requires forall k :: 0 <= k < |order| ==> order[k] in m
  {
    if order == [] then ""
    else Entry(order[0], m[order[0]]) + ", " + Entries(order[1..], m)
  }

  function Entry(id: int, value: int): string {
    "c" + IntToString(id) + "=" + IntToString(value)
  }

  /** The entries separated by `, `, with no separator after the last: the form
      the trimming produces. */
  function Joined(order: seq<int>, m: map<int, int>): string
    requires forall k :: 0 <= k < |order| ==> order[k] in m
  {
    if order == [] then ""
    else if |order| == 1 then Entry(order[0], m[order[0]])
    else Entry(order[0], m[order[0]]) + ", " + Joined(order[1..], m)
  }

  /** `order` lists every counter of `m` once: the HashMap's key iteration
      order, which the model leaves open. */
  predicate Enumerates(order: seq<int>, m: map<int, int>) {
    && (forall k :: 0 <= k < |order| ==> order[k] in m)
    && (forall id :: id in m ==> id in order)
    && (forall i, j :: 0 <= i < j < |order| ==> order[i] != order[j])
  }

  /** The bracketed counter values: append every entry with a trailing `, `,
      then cut the last two characters if any entry was appended. */
  function CounterValuesText(order: seq<int>, m: map<int, int>): string
    requires Enumerates(order, m)
  {
    var built := Entries(order, m);
    var end := if |order| > 0 then |built| - 2 else |built|;
    assert |order| > 0 ==> |built| >= 2;
    "[" + built[..end] + "]"
  }

  /** Dropping the trailing separator leaves the entries joined by `, `; an
      empty map renders as `[]`. */
  lemma {:induction false} CounterValuesTextMeaning(order: seq<int>, m: map<int, int>)
    requires Enumerates(order, m)
    ensures CounterValuesText(order, m) == "[" + Joined(order, m) + "]"
    ensures m == map[] ==> CounterValuesText(order, m) == "[]"
  {
    if order != [] {
      assert order[0] in m;
    }
    EntriesTrim(order, m);
  }

  lemma {:induction false} EntriesTrim(order: seq<int>, m: map<int, int>)
    requires forall k :: 0 <= k < |order| ==> order[k] in m
    ensures order != [] ==> |Entries(order, m)| >= 2 && Entries(order, m)[..|Entries(order, m)| - 2] == Joined(order, m)
    ensures order == [] ==> Entries(order, m) == "" && Joined(order, m) == ""
    decreases |order|
  {
    if |order| == 1 {
      assert Entries(order[1..], m) == "";
      assert Entries(order, m) == Entry(order[0], m[order[0]]) + ", ";
    } else if |order| > 1 {
      EntriesTrim(order[1..], m);
      var head := Entry(order[0], m[order[0]]) + ", ";
      var rest := Entries(order[1..], m);
      assert Entries(order, m) == head + rest;
      assert (head + rest)[..|head + rest| - 2] == head + rest[..|rest| - 2];
    }
  }

  /** Configuration.toString, given the symbol of the state's token. */
  function ConfigToString(c: Configuration, symbol: string, order: seq<int>): string
    requires Enumerates(order, c.counterValues)
  {
    "{s_id=" + IntToString(c.state) + ", s_sym=" + symbol + ", c_vals=" + CounterValuesText(order, c.counterValues) + "}"
  }

  /** NfaStateShim.shimString, given the symbol of the state's token: the same
      format, built by the same loop. */
  function ShimString(state: int, symbol: string, counterVals: map<int, int>, order: seq<int>): string
    requires Enumerates(order, counterVals)
  {
    "{s_id=" + IntToString(state) + ", s_sym=" + symbol + ", c_vals=" + CounterValuesText(order, counterVals) + "}"
  }

  /** Both generations render a configuration the same way: the state id, the
      state's symbol, then the counters joined by `, ` in brackets. */
  lemma RenderingsAgree(c: Configuration, symbol: string, order: seq<int>)
    requires Enumerates(order, c.counterValues)
    ensures ShimString(c.state, symbol, c.counterValues, order) == ConfigToString(c, symbol, order)
    ensures ConfigToString(c, symbol, order)
            == "{s_id=" + IntToString(c.state) + ", s_sym=" + symbol + ", c_vals=[" + Joined(order, c.counterValues) + "]}"
  {
    CounterValuesTextMeaning(order, c.counterValues);
    var prefix := "{s_id=" + IntToString(c.state) + ", s_sym=" + symbol + ", c_vals=";
    Bracketed(prefix, Joined(order, c.counterValues));
  }

  lemma Bracketed(prefix: string, inner: string)
    ensures prefix + ("[" + inner + "]") + "}" == prefix + "[" + inner + "]}"
  {
  }
}
