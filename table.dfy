/**
 * The row-building part of `write_lrtbl`: for each state, a shift row per
 * transition on a terminal, an `acc` row on `#` when `S' -> S·` is in the
 * state, for every other complete production a reduce row on every terminal
 * and on `#`, and a goto row per transition on a non-terminal. Rows with the
 * same `(state, symbol)` key are all kept (a conflicting table keeps its
 * conflicts), in the order shift, `acc`, reduce; both lists are then stably
 * sorted by key, which keeps that order.
 */
module Table {
  import opened Text
  import opened Grammar
  import opened Automaton
  import opened Rows

  /** `f"s{tgt}"`. */
  function ShiftAction(target: nat): string {
    "s" + NatToString(target)
  }

  /** `f"r{reduce_id}"`. */
  function ReduceAction(p: nat): string {
    "r" + NatToString(p)
  }

  const AcceptAction: string := "acc"

  /**
   * Where an action value falls in the rows one state appends: shift rows
   * first, then `acc`, then reduce rows.
   */
  function Rank(v: string): nat {
    if v == AcceptAction then 1 else if |v| > 0 && v[0] == 'r' then 2 else 0
  }

  lemma ActionRanks(target: nat, p: nat)
    ensures Rank(ShiftAction(target)) == 0 && Rank(AcceptAction) == 1 && Rank(ReduceAction(p)) == 2
  {
    assert ShiftAction(target)[0] == 's' && ReduceAction(p)[0] == 'r';
  }

  /** The rows come in rank order. */
  predicate RankOrdered(rows: seq<Row<string>>) {
    forall i, j :: 0 <= i < j < |rows| ==> Rank(rows[i].val) <= Rank(rows[j].val)
  }

  /** Rows with the same key come in rank order, wherever they are in the list. */
  predicate KeyRankOrdered(rows: seq<Row<string>>) {
    forall i, j :: 0 <= i < j < |rows| && KeyOf(rows[i]) == KeyOf(rows[j]) ==> Rank(rows[i].val) <= Rank(rows[j].val)
  }

  /** For every key, the rows with that key, in their order, are in rank order. */
  ghost predicate RanksInOrder(rows: seq<Row<string>>) {
    forall k :: RankOrdered(Filter(rows, k))
  }

  ghost predicate ShiftRow(g: Grammar, st: State, r: Row<string>) {
    r.state == st.id && r.sym in st.transitions && r.sym in g.terms
    && r.val == ShiftAction(st.transitions[r.sym])
  }

  ghost predicate AcceptRow(g: Grammar, st: State, r: Row<string>) {
    r == Row(st.id, EndMarker, AcceptAction) && ReducesBy(g, st.items, 0)
  }

  ghost predicate ReduceRow(g: Grammar, st: State, r: Row<string>) {
    r.state == st.id && (r.sym in g.terms || r.sym == EndMarker)
    && exists p: nat :: 0 < p && ReducesBy(g, st.items, p) && r.val == ReduceAction(p)
  }

  /** The action rows state `st` contributes. */
  ghost predicate StateActionRow(g: Grammar, st: State, r: Row<string>) {
    ShiftRow(g, st, r) || AcceptRow(g, st, r) || ReduceRow(g, st, r)
  }

  /** The goto rows state `st` contributes: its transitions on non-terminals. */
  ghost predicate GotoRow(g: Grammar, st: State, r: Row<int>) {
    r.state == st.id && r.sym in st.transitions && r.sym !in g.terms && r.val == st.transitions[r.sym]
  }

  ghost predicate ActionRowOf(g: Grammar, states: seq<State>, r: Row<string>) {
    exists k :: 0 <= k < |states| && StateActionRow(g, states[k], r)
  }

  ghost predicate GotoRowOf(g: Grammar, states: seq<State>, r: Row<int>) {
    exists k :: 0 <= k < |states| && GotoRow(g, states[k], r)
  }

  /** The shift loop: one `s<tgt>` row per transition on a terminal. */
  method AppendShiftRows(g: Grammar, st: State, action: seq<Row<string>>) returns (action': seq<Row<string>>)
    ensures forall r :: r in action' <==> r in action || ShiftRow(g, st, r)
    ensures |action| <= |action'| && action'[..|action|] == action
    ensures forall i :: |action| <= i < |action'| ==> action'[i].state == st.id && Rank(action'[i].val) == 0
  {
    action' := action;
    var todo := st.transitions.Keys;
    while todo != {}
      invariant todo <= st.transitions.Keys
      invariant forall r :: r in action' <==> r in action || (ShiftRow(g, st, r) && r.sym !in todo)
      invariant |action| <= |action'| && action'[..|action|] == action
      invariant forall i :: |action| <= i < |action'| ==> action'[i].state == st.id && Rank(action'[i].val) == 0
      decreases |todo|
    {
      var sym :| sym in todo;
      todo := todo - {sym};
      if sym in g.terms {
        ActionRanks(st.transitions[sym], 0);
        action' := action' + [Row(st.id, sym, ShiftAction(st.transitions[sym]))];
      }
    }
  }

  /** One turn of the item loop: `acc` for the complete item of production 0, the id of any other complete item. */
  method ScanItem(g: Grammar, st: State, item: Item, action: seq<Row<string>>, reduceIds: seq<nat>)
    returns (action': seq<Row<string>>, reduceIds': seq<nat>)
    requires item.prod < |g.prods|
    ensures action' == action + (if item == Item(0, |g.prods[0].right|) then [Row(st.id, EndMarker, AcceptAction)] else [])
    ensures reduceIds' == reduceIds + (if 0 < item.prod && item == Item(item.prod, |g.prods[item.prod].right|) then [item.prod] else [])
  {
    action', reduceIds' := action, reduceIds;
    if item.dot == |g.prods[item.prod].right| {
      if item.prod == 0 {
        action' := action' + [Row(st.id, EndMarker, AcceptAction)];
      } else {
        reduceIds' := reduceIds' + [item.prod];
      }
    }
  }

  /**
   * The item loop: `acc` on `#` for the complete item of production 0, and the
   * ids of the other complete productions, in the order the items are met.
   */
  method AcceptAndReduceIds(g: Grammar, st: State, action: seq<Row<string>>)
    returns (action': seq<Row<string>>, reduceIds: seq<nat>)
    requires forall it :: it in st.items ==> it.prod < |g.prods|
    ensures forall r :: r in action' <==> r in action || AcceptRow(g, st, r)
    ensures forall p: nat :: p in reduceIds <==> 0 < p && ReducesBy(g, st.items, p)
    ensures |action| <= |action'| && action'[..|action|] == action
    ensures forall i :: |action| <= i < |action'| ==> action'[i].state == st.id && Rank(action'[i].val) == 1
  {
    action' := action;
    reduceIds := [];
    var todo := st.items;
    ghost var scanned: set<Item> := {};
    while todo != {}
      invariant scanned + todo == st.items && scanned !! todo
      invariant forall r :: r in action' <==> r in action || (r == Row(st.id, EndMarker, AcceptAction) && ReducesBy(g, scanned, 0))
      invariant forall p: nat :: p in reduceIds <==> 0 < p && ReducesBy(g, scanned, p)
      invariant |action| <= |action'| && action'[..|action|] == action
      invariant forall i :: |action| <= i < |action'| ==> action'[i] == Row(st.id, EndMarker, AcceptAction)
      decreases |todo|
    {
      var item :| item in todo;
      todo := todo - {item};
      scanned := scanned + {item};
      action', reduceIds := ScanItem(g, st, item, action', reduceIds);
    }
    ActionRanks(0, 0);
  }

  /** The innermost loop: `r<p>` on every terminal. */
  method AppendReduceOnTerms(terms: set<Symbol>, id: nat, p: nat, action: seq<Row<string>>)
    returns (action': seq<Row<string>>)
    ensures forall r :: r in action' <==> r in action || (r.state == id && r.sym in terms && r.val == ReduceAction(p))
    ensures |action| <= |action'| && action'[..|action|] == action
    ensures forall i :: |action| <= i < |action'| ==> action'[i].state == id && Rank(action'[i].val) == 2
  {
    action' := action;
    var todo := terms;
    ActionRanks(0, p);
    while todo != {}
      invariant todo <= terms
      invariant forall r :: r in action' <==>
        r in action || (r.state == id && r.sym in terms && r.sym !in todo && r.val == ReduceAction(p))
      invariant |action| <= |action'| && action'[..|action|] == action
      invariant forall i :: |action| <= i < |action'| ==> action'[i].state == id && Rank(action'[i].val) == 2
      decreases |todo|
    {
      var t :| t in todo;
      todo := todo - {t};
      action' := action' + [Row(id, t, ReduceAction(p))];
    }
  }

  /** The reduce loop: for each collected id, `r<id>` on every terminal and then on `#`. */
  method AppendReduceRows(terms: set<Symbol>, id: nat, reduceIds: seq<nat>, action: seq<Row<string>>)
    returns (action': seq<Row<string>>)
    ensures forall r :: r in action' <==>
      r in action || (r.state == id && (r.sym in terms || r.sym == EndMarker)
                      && exists k :: 0 <= k < |reduceIds| && r.val == ReduceAction(reduceIds[k]))
    ensures |action| <= |action'| && action'[..|action|] == action
    ensures forall i :: |action| <= i < |action'| ==> action'[i].state == id && Rank(action'[i].val) == 2
  {
    action' := action;
    for j := 0 to |reduceIds|
      invariant forall r :: r in action' <==>
        r in action || (r.state == id && (r.sym in terms || r.sym == EndMarker)
                        && exists k :: 0 <= k < j && r.val == ReduceAction(reduceIds[k]))
      invariant |action| <= |action'| && action'[..|action|] == action
      invariant forall i :: |action| <= i < |action'| ==> action'[i].state == id && Rank(action'[i].val) == 2
    {
      ActionRanks(0, reduceIds[j]);
      action' := AppendReduceOnTerms(terms, id, reduceIds[j], action');
      action' := action' + [Row(id, EndMarker, ReduceAction(reduceIds[j]))];
    }
  }

  /** The goto loop: one row per transition on a non-terminal. */
  method AppendGotoRows(g: Grammar, st: State, goto: seq<Row<int>>) returns (goto': seq<Row<int>>)
    ensures forall r :: r in goto' <==> r in goto || GotoRow(g, st, r)
  {
    goto' := goto;
    var todo := st.transitions.Keys;
    while todo != {}
      invariant todo <= st.transitions.Keys
      invariant forall r :: r in goto' <==> r in goto || (GotoRow(g, st, r) && r.sym !in todo)
      decreases |todo|
    {
      var sym :| sym in todo;
      todo := todo - {sym};
      if sym !in g.terms {
        goto' := goto' + [Row(st.id, sym, st.transitions[sym])];
      }
    }
  }

  /** The reduce rows of one state are those of its collected ids. */
  lemma ReduceRowsOfIds(g: Grammar, st: State, reduceIds: seq<nat>, r: Row<string>)
    requires forall p: nat :: p in reduceIds <==> 0 < p && ReducesBy(g, st.items, p)
    ensures ReduceRow(g, st, r) <==>
      r.state == st.id && (r.sym in g.terms || r.sym == EndMarker)
      && exists k :: 0 <= k < |reduceIds| && r.val == ReduceAction(reduceIds[k])
  {
    if ReduceRow(g, st, r) {
      var p: nat :| 0 < p && ReducesBy(g, st.items, p) && r.val == ReduceAction(p);
      var k :| 0 <= k < |reduceIds| && reduceIds[k] == p;
    }
    if exists k :: 0 <= k < |reduceIds| && r.val == ReduceAction(reduceIds[k]) {
      var k :| 0 <= k < |reduceIds| && r.val == ReduceAction(reduceIds[k]);
      assert reduceIds[k] in reduceIds;
    }
  }

  /** All rows of one state, in the order the generator appends them. */
  method AppendStateRows(g: Grammar, st: State, action: seq<Row<string>>, goto: seq<Row<int>>)
    returns (action': seq<Row<string>>, goto': seq<Row<int>>)
    requires forall it :: it in st.items ==> it.prod < |g.prods|
    ensures forall r :: r in action' <==> r in action || StateActionRow(g, st, r)
    ensures forall r :: r in goto' <==> r in goto || GotoRow(g, st, r)
    ensures |action| <= |action'| && action'[..|action|] == action
    ensures forall i :: |action| <= i < |action'| ==> action'[i].state == st.id
    ensures RankOrdered(action'[|action|..])
  {
    var shifted := AppendShiftRows(g, st, action);
    var accepted, reduceIds := AcceptAndReduceIds(g, st, shifted);
    action' := AppendReduceRows(g.terms, st.id, reduceIds, accepted);
    assert forall i :: |action| <= i < |action'| ==>
      action'[i].state == st.id
      && (if i < |shifted| then Rank(action'[i].val) == 0
          else if i < |accepted| then Rank(action'[i].val) == 1
          else Rank(action'[i].val) == 2)
    by {
      forall i | |action| <= i < |action'|
        ensures action'[i].state == st.id
        ensures if i < |shifted| then Rank(action'[i].val) == 0
                else if i < |accepted| then Rank(action'[i].val) == 1
                else Rank(action'[i].val) == 2
      {
        if i < |accepted| {
          assert action'[i] == accepted[i];
          if i < |shifted| {
            assert accepted[i] == shifted[i];
          }
        }
      }
    }
    forall r ensures ReduceRow(g, st, r) <==>
      r.state == st.id && (r.sym in g.terms || r.sym == EndMarker)
      && exists k :: 0 <= k < |reduceIds| && r.val == ReduceAction(reduceIds[k])
    {
      ReduceRowsOfIds(g, st, reduceIds, r);
    }
    goto' := AppendGotoRows(g, st, goto);
  }

  /**
   * Appending the rows of a state whose id exceeds every earlier row's state
   * keeps rows with the same key in rank order: the new rows share no key
   * with the earlier ones.
   */
  lemma KeyRankExtend(before: seq<Row<string>>, after: seq<Row<string>>, id: nat)
    requires KeyRankOrdered(before) && forall j :: 0 <= j < |before| ==> before[j].state < id
    requires |before| <= |after| && after[..|before|] == before
    requires forall j :: |before| <= j < |after| ==> after[j].state == id
    requires RankOrdered(after[|before|..])
    ensures KeyRankOrdered(after)
    ensures forall j :: 0 <= j < |after| ==> after[j].state <= id
  {
    forall i, j | 0 <= i < |before| <= j < |after| ensures after[i].state < after[j].state {
      assert after[i] == before[i];
    }
    forall i, j | 0 <= i < j < |after| && KeyOf(after[i]) == KeyOf(after[j])
      ensures Rank(after[i].val) <= Rank(after[j].val)
    {
      if j < |before| {
        assert after[i] == before[i] && after[j] == before[j];
      } else if |before| <= i {
        assert after[i] == after[|before|..][i - |before|];
        assert after[j] == after[|before|..][j - |before|];
      }
    }
    forall j | 0 <= j < |after| ensures after[j].state <= id {
      if j < |before| {
        assert after[j] == before[j];
      }
    }
  }

  /** Rows with the same key in rank order: the rows of each key, filtered out, are in rank order. */
  lemma {:induction false} FilterRankOrdered(rows: seq<Row<string>>, k: Key)
    requires KeyRankOrdered(rows)
    ensures RankOrdered(Filter(rows, k))
    decreases |rows|
  {
    if rows != [] {
      var rest := rows[1..];
      forall i, j | 0 <= i < j < |rest| && KeyOf(rest[i]) == KeyOf(rest[j])
        ensures Rank(rest[i].val) <= Rank(rest[j].val)
      {
        assert rest[i] == rows[i + 1] && rest[j] == rows[j + 1];
      }
      FilterRankOrdered(rest, k);
      if KeyOf(rows[0]) == k {
        var f := Filter(rest, k);
        FilterMembers(rest, k);
        forall j | 0 <= j < |f| ensures Rank(rows[0].val) <= Rank(f[j].val) {
          assert f[j] in f;
          var m :| 0 <= m < |rest| && rest[m] == f[j];
          assert rows[m + 1] == f[j];
        }
        assert Filter(rows, k) == [rows[0]] + f;
      }
    }
  }

  /**
   * The dictionary read from rows whose keys are each in rank order holds,
   * for every key, the value of one of its rows, of the highest rank among
   * them.
   */
  lemma MapKeepsHighestRank(rows: seq<Row<string>>, r: Row<string>)
    requires RanksInOrder(rows) && r in rows
    ensures KeyOf(r) in ToMap(rows) && Rank(r.val) <= Rank(ToMap(rows)[KeyOf(r)])
    ensures exists x :: x in rows && KeyOf(x) == KeyOf(r) && x.val == ToMap(rows)[KeyOf(r)]
  {
    var k := KeyOf(r);
    var f := Filter(rows, k);
    FilterMembers(rows, k);
    ToMapLast(rows, k);
    assert r in f;
    var i :| 0 <= i < |f| && f[i] == r;
    assert RankOrdered(f);
    assert f[|f| - 1] in f;
  }

  /**
   * `write_lrtbl`'s rows: the rows of every state, each list then stably
   * sorted by `(state, symbol)`.
   */
  method CompileRows(g: Grammar, states: seq<State>) returns (action: seq<Row<string>>, goto: seq<Row<int>>)
    requires forall i :: 0 <= i < |states| ==> forall it :: it in states[i].items ==> it.prod < |g.prods|
    ensures Sorted(action) && Sorted(goto)
    ensures forall r :: r in action <==> ActionRowOf(g, states, r)
    ensures forall r :: r in goto <==> GotoRowOf(g, states, r)
    ensures StateIdsAreIndices(states) ==> RanksInOrder(action)
  {
    action, goto := [], [];
    for i := 0 to |states|
      invariant forall r :: r in action <==> exists k :: 0 <= k < i && StateActionRow(g, states[k], r)
      invariant forall r :: r in goto <==> exists k :: 0 <= k < i && GotoRow(g, states[k], r)
      invariant StateIdsAreIndices(states) ==>
        KeyRankOrdered(action) && forall j :: 0 <= j < |action| ==> action[j].state < i
    {
      var before := action;
      action, goto := AppendStateRows(g, states[i], action, goto);
      if StateIdsAreIndices(states) {
        KeyRankExtend(before, action, i);
      }
    }
    if StateIdsAreIndices(states) {
      forall k ensures RankOrdered(Filter(SortRows(action), k)) {
        FilterRankOrdered(action, k);
        SortRowsStable(action, k);
      }
    }
    SortRowsSorted(action);
    SortRowsSorted(goto);
    forall r ensures r in SortRows(action) <==> r in action {
      assert r in SortRows(action) <==> r in multiset(SortRows(action));
    }
    forall r ensures r in SortRows(goto) <==> r in goto {
      assert r in SortRows(goto) <==> r in multiset(SortRows(goto));
    }
    action := SortRows(action);
    goto := SortRows(goto);
  }

}
