/**
 * The generator and the driver together. For a conflict-free canonical
 * collection, all rows that share a `(state, symbol)` key carry the same
 * value, so the dictionaries the driver fills from the written table hold
 * exactly one entry per key, the one the automaton prescribes, whatever the
 * row order. A turn of the driver then does what the automaton says: shift
 * along a transition on a terminal, reduce by the one complete production,
 * accept on `#` after `S' -> S·`, and reject where the state has no entry.
 */
module Pipeline {
  import opened Text
  import opened Grammar
  import opened Automaton
  import opened Conflicts
  import opened Rows
  import opened Table
  import opened TableReader
  import opened Driver

  /** Every symbol of the grammar is a word, as the reader's `split()` produces them. */
  predicate WordSymbols(g: Grammar) {
    (forall t :: t in g.terms ==> IsWord(t))
    && forall p :: 0 <= p < |g.prods| ==> forall j :: 0 <= j < |g.prods[p].right| ==> IsWord(g.prods[p].right[j])
  }

  /** Two action rows of one state on the same symbol with different values are a conflict. */
  lemma ClashIsConflict(g: Grammar, st: State, r1: Row<string>, r2: Row<string>)
    requires StateActionRow(g, st, r1) && StateActionRow(g, st, r2)
    requires r1.sym == r2.sym && r1.val != r2.val
    ensures HasConflict(g, st)
  {
    if ShiftRow(g, st, r1) != ShiftRow(g, st, r2) {
      var other := if ShiftRow(g, st, r1) then r2 else r1;
      if AcceptRow(g, st, other) {
        assert ReducesBy(g, st.items, 0);
      } else {
        var p: nat :| 0 < p && ReducesBy(g, st.items, p) && other.val == ReduceAction(p);
      }
    } else if AcceptRow(g, st, r1) && ReduceRow(g, st, r2) {
      var q: nat :| 0 < q && ReducesBy(g, st.items, q) && r2.val == ReduceAction(q);
      assert ReducesBy(g, st.items, 0);
    } else if ReduceRow(g, st, r1) && AcceptRow(g, st, r2) {
      var p: nat :| 0 < p && ReducesBy(g, st.items, p) && r1.val == ReduceAction(p);
      assert ReducesBy(g, st.items, 0);
    } else if ReduceRow(g, st, r1) && ReduceRow(g, st, r2) {
      var p: nat :| 0 < p && ReducesBy(g, st.items, p) && r1.val == ReduceAction(p);
      var q: nat :| 0 < q && ReducesBy(g, st.items, q) && r2.val == ReduceAction(q);
      assert p != q;
    }
  }

  /** The action rows of a conflict-free collection with the same key carry the same value. */
  lemma ActionRowsAgree(g: Grammar, states: seq<State>, r1: Row<string>, r2: Row<string>)
    requires StateIdsAreIndices(states) && ConflictFree(g, states)
    requires ActionRowOf(g, states, r1) && ActionRowOf(g, states, r2) && KeyOf(r1) == KeyOf(r2)
    ensures r1.val == r2.val
  {
    var k1 :| 0 <= k1 < |states| && StateActionRow(g, states[k1], r1);
    var k2 :| 0 <= k2 < |states| && StateActionRow(g, states[k2], r2);
    assert k1 == r1.state == r2.state == k2;
    if r1.val != r2.val {
      ClashIsConflict(g, states[k1], r1, r2);
    }
  }

  /** The goto rows of a collection whose ids are indices never disagree: a state has one transition per symbol. */
  lemma GotoRowsAgree(g: Grammar, states: seq<State>, r1: Row<int>, r2: Row<int>)
    requires StateIdsAreIndices(states)
    requires GotoRowOf(g, states, r1) && GotoRowOf(g, states, r2) && KeyOf(r1) == KeyOf(r2)
    ensures r1.val == r2.val
  {
    var k1 :| 0 <= k1 < |states| && GotoRow(g, states[k1], r1);
    var k2 :| 0 <= k2 < |states| && GotoRow(g, states[k2], r2);
    assert k1 == k2;
  }

  /**
   * The action dictionary read from the compiled rows of a conflict-free
   * collection: a key is present exactly when the automaton has an action
   * row with that key, and it holds that row's value.
   */
  lemma ActionMapOfRows(g: Grammar, states: seq<State>, action: seq<Row<string>>)
    requires StateIdsAreIndices(states) && ConflictFree(g, states)
    requires forall r :: r in action <==> ActionRowOf(g, states, r)
    ensures forall k :: k in ToMap(action) <==> exists r :: r in action && KeyOf(r) == k
    ensures forall r :: ActionRowOf(g, states, r) ==> ToMap(action)[KeyOf(r)] == r.val
  {
    forall k ensures k in ToMap(action) <==> exists r :: r in action && KeyOf(r) == k {
      if r :| r in action && KeyOf(r) == k {
        RowsAgreeAt(g, states, action, r);
      } else {
        forall i | 0 <= i < |action| ensures KeyOf(action[i]) != k {
          assert action[i] in action;
        }
        FilterNone(action, k);
        ToMapLast(action, k);
      }
    }
    forall r | ActionRowOf(g, states, r) ensures ToMap(action)[KeyOf(r)] == r.val {
      RowsAgreeAt(g, states, action, r);
    }
  }

  lemma RowsAgreeAt(g: Grammar, states: seq<State>, action: seq<Row<string>>, r: Row<string>)
    requires StateIdsAreIndices(states) && ConflictFree(g, states)
    requires forall r :: r in action <==> ActionRowOf(g, states, r)
    requires r in action
    ensures KeyOf(r) in ToMap(action) && ToMap(action)[KeyOf(r)] == r.val
  {
    forall i | 0 <= i < |action| && KeyOf(action[i]) == KeyOf(r) ensures action[i].val == r.val {
      assert action[i] in action;
      ActionRowsAgree(g, states, action[i], r);
    }
    ToMapAgreeing(action, KeyOf(r), r.val);
    var i :| 0 <= i < |action| && action[i] == r;
  }

  /** The goto dictionary read from the compiled goto rows: the transitions on non-terminals, one entry each. */
  lemma GotoMapOfRows(g: Grammar, states: seq<State>, goto: seq<Row<int>>)
    requires StateIdsAreIndices(states)
    requires forall r :: r in goto <==> GotoRowOf(g, states, r)
    ensures forall k :: k in ToMap(goto) <==> exists r :: r in goto && KeyOf(r) == k
    ensures forall r :: GotoRowOf(g, states, r) ==> ToMap(goto)[KeyOf(r)] == r.val
  {
    forall k ensures k in ToMap(goto) <==> exists r :: r in goto && KeyOf(r) == k {
      if r :| r in goto && KeyOf(r) == k {
        GotoAgreeAt(g, states, goto, r);
      } else {
        forall i | 0 <= i < |goto| ensures KeyOf(goto[i]) != k {
          assert goto[i] in goto;
        }
        FilterNone(goto, k);
        ToMapLast(goto, k);
      }
    }
    forall r | GotoRowOf(g, states, r) ensures ToMap(goto)[KeyOf(r)] == r.val {
      GotoAgreeAt(g, states, goto, r);
    }
  }

  lemma GotoAgreeAt(g: Grammar, states: seq<State>, goto: seq<Row<int>>, r: Row<int>)
    requires StateIdsAreIndices(states)
    requires forall r :: r in goto <==> GotoRowOf(g, states, r)
    requires r in goto
    ensures KeyOf(r) in ToMap(goto) && ToMap(goto)[KeyOf(r)] == r.val
  {
    forall i | 0 <= i < |goto| && KeyOf(goto[i]) == KeyOf(r) ensures goto[i].val == r.val {
      assert goto[i] in goto;
      GotoRowsAgree(g, states, goto[i], r);
    }
    ToMapAgreeing(goto, KeyOf(r), r.val);
    var i :| 0 <= i < |goto| && goto[i] == r;
  }

  /**
   * In a conflicting table, where a state reduces on a symbol, the driver's
   * dictionary holds a reduce action of that state for the symbol, over any
   * `s<N>` or `acc` row with the same key: the generator appends a state's
   * reduce rows after its shift and `acc` rows, and the sort is stable.
   */
  lemma DictionaryPrefersReduce(g: Grammar, states: seq<State>, action: seq<Row<string>>, r: Row<string>)
    requires StateIdsAreIndices(states)
    requires (forall x :: x in action <==> ActionRowOf(g, states, x)) && RanksInOrder(action)
    requires 0 <= r.state < |states| && ReduceRow(g, states[r.state], r)
    ensures KeyOf(r) in ToMap(action)
    ensures exists p: nat :: 0 < p && ReducesBy(g, states[r.state].items, p) && ToMap(action)[KeyOf(r)] == ReduceAction(p)
  {
    assert r in action;
    var q: nat :| 0 < q && ReducesBy(g, states[r.state].items, q) && r.val == ReduceAction(q);
    ActionRanks(0, q);
    MapKeepsHighestRank(action, r);
    var x :| x in action && KeyOf(x) == KeyOf(r) && x.val == ToMap(action)[KeyOf(r)];
    var k :| 0 <= k < |states| && StateActionRow(g, states[k], x);
    assert k == r.state;
    if ShiftRow(g, states[k], x) {
      ActionRanks(states[k].transitions[x.sym], 0);
    }
  }

  /** The compiled rows of a canonical collection over word symbols can be written as table lines. */
  lemma CompiledRowsWritable(g: Grammar, states: seq<State>, action: seq<Row<string>>, goto: seq<Row<int>>)
    requires IsCanonical(g, states) && WordSymbols(g)
    requires forall r :: r in action <==> ActionRowOf(g, states, r)
    requires forall r :: r in goto <==> GotoRowOf(g, states, r)
    ensures forall i :: 0 <= i < |action| ==> Writable(action[i]) && IsWord(action[i].val)
    ensures forall i :: 0 <= i < |goto| ==> Writable(goto[i]) && goto[i].val >= 0
  {
    forall i | 0 <= i < |action| ensures Writable(action[i]) && IsWord(action[i].val) {
      var r := action[i];
      assert r in action;
      var k :| 0 <= k < |states| && StateActionRow(g, states[k], r);
      if ShiftRow(g, states[k], r) {
        NatToStringIsWord(states[k].transitions[r.sym]);
      } else if ReduceRow(g, states[k], r) {
        var p: nat :| 0 < p && ReducesBy(g, states[k].items, p) && r.val == ReduceAction(p);
        NatToStringIsWord(p);
      }
    }
    forall i | 0 <= i < |goto| ensures Writable(goto[i]) && goto[i].val >= 0 {
      var r := goto[i];
      assert r in goto;
      var k :| 0 <= k < |states| && GotoRow(g, states[k], r);
      TransitionSymbolIsWord(g, states, k, r.sym);
    }
  }

  /** A transition symbol follows a dot in a valid item, so it is a right-side symbol. */
  lemma TransitionSymbolIsWord(g: Grammar, states: seq<State>, k: nat, x: Symbol)
    requires IsCanonical(g, states) && WordSymbols(g)
    requires k < |states| && x in states[k].transitions
    ensures IsWord(x)
  {
    assert Explored(g, states, k);
    var it :| it in states[k].items && NextSymbol(g, it).Some? && NextSymbol(g, it).value == x;
    assert ValidItem(g, it);
  }

  /** The action dictionary holds the automaton's action rows, one entry each. */
  ghost predicate ActionTableOf(g: Grammar, states: seq<State>, action: map<Key, string>) {
    (forall k :: k in action <==> exists r :: ActionRowOf(g, states, r) && KeyOf(r) == k)
    && forall r :: ActionRowOf(g, states, r) ==> action[KeyOf(r)] == r.val
  }

  /** The goto dictionary holds the automaton's transitions on non-terminals. */
  ghost predicate GotoTableOf(g: Grammar, states: seq<State>, goto: map<Key, int>) {
    (forall k :: k in goto <==> exists r :: GotoRowOf(g, states, r) && KeyOf(r) == k)
    && forall r :: GotoRowOf(g, states, r) ==> goto[KeyOf(r)] == r.val
  }

  /** The lines `write_lrtbl` writes for the compiled rows. */
  ghost function WrittenLines(g: Grammar, states: seq<State>, action: seq<Row<string>>, goto: seq<Row<int>>): seq<string>
    requires IsCanonical(g, states) && WordSymbols(g)
    requires forall r :: r in action <==> ActionRowOf(g, states, r)
    requires forall r :: r in goto <==> GotoRowOf(g, states, r)
  {
    CompiledRowsWritable(g, states, action, goto);
    TableText(action, goto)
  }

  /**
   * The table the generator writes for a conflict-free canonical collection
   * reads back as dictionaries whose entries are exactly the automaton's rows.
   */
  lemma WrittenTableIsAutomaton(g: Grammar, states: seq<State>, action: seq<Row<string>>, goto: seq<Row<int>>)
    requires IsCanonical(g, states) && ConflictFree(g, states) && WordSymbols(g)
    requires forall r :: r in action <==> ActionRowOf(g, states, r)
    requires forall r :: r in goto <==> GotoRowOf(g, states, r)
    ensures var lines := WrittenLines(g, states, action, goto);
            TableLinesOk(lines)
            && ActionTableOf(g, states, ToMap(ActionRows(lines)))
            && GotoTableOf(g, states, ToMap(GotoRows(lines)))
  {
    CompiledRowsWritable(g, states, action, goto);
    WrittenTableReadsBack(action, goto);
    ActionMapOfRows(g, states, action);
    GotoMapOfRows(g, states, goto);
  }

  /** A configuration whose top state is a state of the collection and whose cursor is on a token. */
  predicate AtState(states: seq<State>, tokens: seq<Symbol>, c: Config) {
    c.states != [] && 0 <= c.states[|c.states| - 1] < |states| && c.ip < |tokens|
  }

  /** The driver shifts along the automaton's transition on the current terminal. */
  lemma DriverShifts(g: Grammar, states: seq<State>, action: map<Key, string>, goto: map<Key, int>,
                     tokens: seq<Symbol>, c: Config)
    requires ActionTableOf(g, states, action) && StateIdsAreIndices(states)
    requires AtState(states, tokens, c)
    requires var st := states[c.states[|c.states| - 1]];
             tokens[c.ip] in st.transitions && tokens[c.ip] in g.terms
    ensures var st := states[c.states[|c.states| - 1]];
            Step(g.prods, action, goto, tokens, c) ==
            Continue(Config(c.states + [st.transitions[tokens[c.ip]]], c.symbols + [tokens[c.ip]], c.ip + 1))
  {
    var i := c.states[|c.states| - 1];
    var st := states[i];
    var x := tokens[c.ip];
    var r := Row(i, x, ShiftAction(st.transitions[x]));
    assert ShiftRow(g, st, r);
    ShiftEntryShifts(g.prods, action, goto, tokens, c, st.transitions[x]);
  }

  /** The driver reduces by the complete production `p` of the top state on any terminal and on `#`. */
  lemma DriverReduces(g: Grammar, states: seq<State>, action: map<Key, string>, goto: map<Key, int>,
                      tokens: seq<Symbol>, c: Config, p: nat)
    requires ActionTableOf(g, states, action) && StateIdsAreIndices(states)
    requires AtState(states, tokens, c)
    requires 0 < p && ReducesBy(g, states[c.states[|c.states| - 1]].items, p)
    requires tokens[c.ip] in g.terms || tokens[c.ip] == EndMarker
    ensures Step(g.prods, action, goto, tokens, c) == Reduce(goto, c, g.prods[p])
  {
    var i := c.states[|c.states| - 1];
    var r := Row(i, tokens[c.ip], ReduceAction(p));
    assert ReduceRow(g, states[i], r);
    ReduceEntryReduces(g.prods, action, goto, tokens, c, p);
  }

  /** The driver accepts on `#` in a state holding `S' -> S·`. */
  lemma DriverAccepts(g: Grammar, states: seq<State>, action: map<Key, string>, goto: map<Key, int>,
                      tokens: seq<Symbol>, c: Config)
    requires ActionTableOf(g, states, action) && StateIdsAreIndices(states)
    requires AtState(states, tokens, c)
    requires ReducesBy(g, states[c.states[|c.states| - 1]].items, 0) && tokens[c.ip] == EndMarker
    ensures Step(g.prods, action, goto, tokens, c) == Halt(Accepted)
  {
    var i := c.states[|c.states| - 1];
    assert AcceptRow(g, states[i], Row(i, EndMarker, AcceptAction));
  }

  /** With ids as indices, the action rows whose state field is `i` are those of `states[i]`. */
  lemma RowsOfState(g: Grammar, states: seq<State>, i: int)
    requires StateIdsAreIndices(states) && 0 <= i < |states|
    ensures forall r :: ActionRowOf(g, states, r) && r.state == i ==> StateActionRow(g, states[i], r)
  {
    forall r | ActionRowOf(g, states, r) && r.state == i ensures StateActionRow(g, states[i], r) {
      var j :| 0 <= j < |states| && StateActionRow(g, states[j], r);
      assert j == i;
    }
  }

  /** The driver rejects where the top state has neither a shift, an accept nor a reduce for the token. */
  lemma DriverRejects(g: Grammar, states: seq<State>, action: map<Key, string>, goto: map<Key, int>,
                      tokens: seq<Symbol>, c: Config)
    requires ActionTableOf(g, states, action) && StateIdsAreIndices(states)
    requires AtState(states, tokens, c)
    requires var st := states[c.states[|c.states| - 1]];
             !(tokens[c.ip] in st.transitions && tokens[c.ip] in g.terms)
             && !(tokens[c.ip] == EndMarker && ReducesBy(g, st.items, 0))
             && !((tokens[c.ip] in g.terms || tokens[c.ip] == EndMarker) && exists p: nat :: 0 < p && ReducesBy(g, st.items, p))
    ensures Step(g.prods, action, goto, tokens, c) == Halt(Rejected)
  {
    RowsOfState(g, states, c.states[|c.states| - 1]);
  }

  /** After a reduce to `A`, the driver goes to the automaton's transition on `A` from the uncovered state. */
  lemma DriverGoesTo(g: Grammar, states: seq<State>, goto: map<Key, int>, c: Config, prod: Production)
    requires GotoTableOf(g, states, goto) && StateIdsAreIndices(states)
    requires var s := PopUpTo(c.states, |prod.right|);
             s != [] && 0 <= s[|s| - 1] < |states|
             && prod.left in states[s[|s| - 1]].transitions && prod.left !in g.terms
    ensures var s := PopUpTo(c.states, |prod.right|);
            Reduce(goto, c, prod) ==
            Continue(Config(s + [states[s[|s| - 1]].transitions[prod.left]],
                            PopUpTo(c.symbols, |prod.right|) + [prod.left], c.ip))
  {
    var s := PopUpTo(c.states, |prod.right|);
    var i := s[|s| - 1];
    assert GotoRow(g, states[i], Row(i, prod.left, states[i].transitions[prod.left]));
  }

}
