/** A state of the NCA: the position token it stands for (or the start token),
    whether it is final, and its outgoing transitions grouped by the symbol they
    read. */
module NcaStates {
  import opened Tokens
  import opened NcaTransitions

  /** The per-symbol transition sets of a state. */
  type TransitionTable = map<string, set<NcaTransition>>

  /** addTransition, on the table as a value: `t` joins the set for `symbol`,
      which is created as a singleton if the symbol is new. */
  function WithTransition(m: TransitionTable, symbol: string, t: NcaTransition): TransitionTable {
    if symbol in m then m[symbol := m[symbol] + {t}] else m[symbol := {t}]
  }

  /** Adding a transition touches only its own symbol, afterwards the symbol's set
      holds exactly the old transitions and `t`; adding it again changes nothing,
      and two additions commute, so the table does not depend on the order in
      which the transitions were added. */
  lemma WithTransitionLaws(m: TransitionTable, symbol: string, t: NcaTransition, symbol': string, t': NcaTransition)
    ensures var r := WithTransition(m, symbol, t);
            && r.Keys == m.Keys + {symbol}
            && r[symbol] == (if symbol in m then m[symbol] else {}) + {t}
            && (forall s :: s in m && s != symbol ==> r[s] == m[s])
            && WithTransition(r, symbol, t) == r
            && WithTransition(r, symbol', t') == WithTransition(WithTransition(m, symbol', t'), symbol, t)
  {
    var a := WithTransition(WithTransition(m, symbol, t), symbol', t');
    var b := WithTransition(WithTransition(m, symbol', t'), symbol, t);
    assert a.Keys == b.Keys;
    forall s | s in a ensures a[s] == b[s] {
      if s == symbol && s == symbol' {
        assert a[s] == (if s in m then m[s] else {}) + {t} + {t'};
      }
    }
  }

  class NcaState {
    const token: Token
    /** The annotation lists of `token` (countersIncrementedHere and so on). */
    const notes: Notes
    const id: int
    const isStart: bool
    const isFinal: bool
    var transitions: TransitionTable

    /** The constructor's asserts are its demands: a start token has id 0, the
        state id is the token's id, and only positions and the start token become
        states. */
    constructor(token: Token, notes: Notes, isFinal: bool, id: int)
      requires token.kind == StartToken ==> token.id == 0
      requires id == token.id
      requires token.IsPosition() || token.kind == StartToken
      ensures this.token == token && this.notes == notes && this.isFinal == isFinal && this.id == id
      ensures isStart <==> token.kind == StartToken
      ensures isStart ==> id == 0
      ensures transitions == map[]
    {
      this.isFinal := isFinal;
      this.isStart := token.kind == StartToken;
      this.token := token;
      this.notes := notes;
      this.id := id;
      this.transitions := map[];
    }

    method AddTransition(symbol: string, transition: NcaTransition)
      modifies this
      ensures transitions == WithTransition(old(transitions), symbol, transition)
    {
      if symbol in transitions {
        var transitionSet := transitions[symbol];
        transitions := transitions[symbol := transitionSet + {transition}];
      } else {
        transitions := transitions[symbol := {transition}];
      }
    }
  }
}
