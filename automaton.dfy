/**
 * `build_lr0_states`: the breadth-first construction of the canonical
 * collection of LR(0) item sets. States are deduplicated by the contents of
 * their item sets through a map from item set to state id; each state's
 * transitions are filled in when it leaves the queue.
 */
module Automaton {
  import opened Wrappers
  import opened Grammar
  import opened ItemSets

  /** An LR(0) state: its item set, its transitions (symbol to target state id) and its id. */
  datatype State = State(items: set<Item>, transitions: map<Symbol, nat>, id: nat)

  /**
   * State `i` has been expanded: it has a transition on exactly the symbols that
   * follow a dot in its items, and each one leads to an existing state whose
   * items are `goto(items, X)`.
   */
  ghost predicate Explored(g: Grammar, states: seq<State>, i: nat)
    requires i < |states|
  {
    var st := states[i];
    st.transitions.Keys == NextSymbols(g, st.items)
    && forall x :: x in st.transitions ==>
         st.transitions[x] < |states| && states[st.transitions[x]].items == GotoOf(g, st.items, x)
  }

  /** Each state's id is its index, so the rows of state `i` are the rows with state field `i`. */
  predicate StateIdsAreIndices(states: seq<State>) {
    forall i :: 0 <= i < |states| ==> states[i].id == i
  }

  /**
   * The result of the construction: state 0 is `closure({S' -> ·start})`, ids
   * are indices, no two states share an item set, every state is expanded, and
   * every later state is the target of a transition of an earlier one.
   */
  ghost predicate IsCanonical(g: Grammar, states: seq<State>) {
    WellFormed(g) && |states| > 0
    && states[0].items == ClosureOf(g, {Item(0, 0)})
    && StateIdsAreIndices(states)
    && (forall i :: 0 <= i < |states| ==> ValidItems(g, states[i].items))
    && (forall i, j :: 0 <= i < j < |states| ==> states[i].items != states[j].items)
    && (forall i :: 0 <= i < |states| ==> Explored(g, states, i))
    && (forall j :: 0 < j < |states| ==> Discovered(states, j))
  }

  /** State `j` is the target of a transition of an earlier state. */
  ghost predicate Discovered(states: seq<State>, j: nat) {
    exists i :: 0 <= i < j && i < |states| && j in states[i].transitions.Values
  }

  /** Every valid item of the grammar. */
  function Universe(g: Grammar): set<Item> {
    set q, d | 0 <= q < |g.prods| && 0 <= d <= |g.prods[q].right| :: Item(q, d)
  }

  lemma ValidInUniverse(g: Grammar, s: set<Item>)
    requires ValidItems(g, s)
    ensures s <= Universe(g)
  {
    forall it | it in s ensures it in Universe(g) {
      assert it == Item(it.prod, it.dot);
    }
  }

  ghost function Pick(u: set<Item>): Item
    requires u != {}
  {
    var x :| x in u; x
  }

  /** All subsets of `u`: the bound on how many distinct states the construction can create. */
  ghost function Subsets(u: set<Item>): set<set<Item>>
    decreases |u|
  {
    if u == {} then {{}}
    else
      var rest := Subsets(u - {Pick(u)});
      rest + set s | s in rest :: s + {Pick(u)}
  }

  lemma {:induction false} SubsetInSubsets(u: set<Item>, s: set<Item>)
    requires s <= u
    ensures s in Subsets(u)
    decreases |u|
  {
    if u == {} {
      assert s == {};
    } else {
      var x := Pick(u);
      SubsetInSubsets(u - {x}, s - {x});
      if x in s {
        assert s == (s - {x}) + {x};
      } else {
        assert s - {x} == s;
      }
    }
  }

  /**
   * The bookkeeping of the construction: ids are indices, item sets are valid,
   * and `idMap` maps each state's item set to its id and nothing else.
   */
  ghost predicate Registry(g: Grammar, states: seq<State>, idMap: map<set<Item>, nat>) {
    WellFormed(g) && |idMap| == |states|
    && (forall i :: 0 <= i < |states| ==>
          states[i].id == i && ValidItems(g, states[i].items)
          && states[i].items in idMap && idMap[states[i].items] == i)
    && (forall k :: k in idMap ==> idMap[k] < |states| && states[idMap[k]].items == k)
  }

  /** Distinct valid item sets are subsets of the universe, so there are boundedly many states. */
  lemma RegistryBound(g: Grammar, states: seq<State>, idMap: map<set<Item>, nat>)
    requires Registry(g, states, idMap)
    ensures |states| <= |Subsets(Universe(g))|
  {
    forall k | k in idMap.Keys ensures k in Subsets(Universe(g)) {
      ValidInUniverse(g, states[idMap[k]].items);
      SubsetInSubsets(Universe(g), k);
    }
    SubsetCard(idMap.Keys, Subsets(Universe(g)));
  }

  lemma NextSymbolsAddOne(g: Grammar, scanned: set<Item>, it: Item)
    ensures NextSymbols(g, scanned + {it})
         == NextSymbols(g, scanned) + (if NextSymbol(g, it).Some? then {NextSymbol(g, it).value} else {})
  {
  }

  /** The symbol-collecting loop of `build_lr0_states`: every symbol right after a dot. */
  method CollectSymbols(g: Grammar, items: set<Item>) returns (symbols: set<Symbol>)
    requires ValidItems(g, items)
    ensures symbols == NextSymbols(g, items)
  {
    symbols := {};
    var todo := items;
    ghost var scanned: set<Item> := {};
    while todo != {}
      invariant scanned + todo == items
      invariant symbols == NextSymbols(g, scanned)
      decreases |todo|
    {
      var item :| item in todo;
      todo := todo - {item};
      NextSymbolsAddOne(g, scanned, item);
      scanned := scanned + {item};
      var r := g.prods[item.prod].right;
      if item.dot < |r| {
        symbols := symbols + {r[item.dot]};
      }
    }
  }

  /**
   * Partway through visiting state `cur` of `states`, with the symbols in
   * `visited` done: `now` extends `states` with fresh, unexpanded states that
   * `cur` leads to, only `cur`'s transitions changed, and each recorded
   * transition leads to its `goto` set.
   */
  ghost predicate Expanding(g: Grammar, states: seq<State>, now: seq<State>,
                            cur: nat, symbols: set<Symbol>, todo: set<Symbol>)
  {
    cur < |states| <= |now|
    && (forall i :: 0 <= i < |states| ==> now[i].items == states[i].items)
    && (forall i :: 0 <= i < |states| && i != cur ==> now[i].transitions == states[i].transitions)
    && (forall i :: |states| <= i < |now| ==> now[i].transitions == map[] && i in now[cur].transitions.Values)
    && todo <= symbols && (forall x :: x in now[cur].transitions <==> x in symbols && x !in todo)
    && (forall x :: x in now[cur].transitions ==>
          now[cur].transitions[x] < |now| && now[now[cur].transitions[x]].items == GotoOf(g, states[cur].items, x))
  }

  /**
   * The effect of visiting symbol `x` of state `cur`: `after` is `before` with
   * at most one fresh unexpanded state appended, `cur.transitions[x]` set to
   * `target`, and `target` holding `goto(cur.items, x)`; nothing else changes.
   */
  ghost predicate Visited(g: Grammar, before: seq<State>, after: seq<State>,
                          cur: nat, x: Symbol, target: nat)
  {
    cur < |before| <= |after|
    && (|after| == |before| || (|after| == |before| + 1 && target == |before| && after[target].transitions == map[]))
    && (forall i :: 0 <= i < |before| ==> after[i].items == before[i].items)
    && (forall i :: 0 <= i < |before| && i != cur ==> after[i].transitions == before[i].transitions)
    && after[cur].transitions == before[cur].transitions[x := target]
    && target < |after| && after[target].items == GotoOf(g, before[cur].items, x)
  }

  /** Visiting one more symbol, as `VisitSymbol` does, keeps `Expanding`. */
  lemma ExpandingStep(g: Grammar, states: seq<State>, before: seq<State>, after: seq<State>, cur: nat, symbols: set<Symbol>,
                      todo: set<Symbol>, x: Symbol, target: nat)
    requires Expanding(g, states, before, cur, symbols, todo) && x in todo
    requires Visited(g, before, after, cur, x, target)
    ensures Expanding(g, states, after, cur, symbols, todo - {x})
  {
    var m := before[cur].transitions;
    TargetsAfterVisit(g, states[cur].items, before, after, m, x, target);
    forall i | |states| <= i < |after| ensures i in after[cur].transitions.Values {
      ValueAfterUpdate(m, x, target, i);
    }
  }

  /** Recording one more transition to a `goto` set keeps every recorded transition leading to its `goto` set. */
  lemma TargetsAfterVisit(g: Grammar, items: set<Item>, before: seq<State>, after: seq<State>,
                          m: map<Symbol, nat>, x: Symbol, target: nat)
    requires forall y :: y in m ==> m[y] < |before| && before[m[y]].items == GotoOf(g, items, y)
    requires |before| <= |after| && forall i :: 0 <= i < |before| ==> after[i].items == before[i].items
    requires target < |after| && after[target].items == GotoOf(g, items, x)
    ensures forall y :: y in m[x := target] ==>
      m[x := target][y] < |after| && after[m[x := target][y]].items == GotoOf(g, items, y)
  {
  }

  /** Before any symbol is visited, nothing has changed. */
  lemma ExpandingStart(g: Grammar, states: seq<State>, cur: nat, symbols: set<Symbol>)
    requires cur < |states| && states[cur].transitions == map[]
    ensures Expanding(g, states, states, cur, symbols, symbols)
  {
  }

  /** Once every symbol after a dot is visited, `cur` is expanded. */
  lemma ExpandingDone(g: Grammar, states: seq<State>, now: seq<State>, cur: nat)
    requires cur < |states| && Expanding(g, states, now, cur, NextSymbols(g, states[cur].items), {})
    ensures |states| <= |now|
    ensures forall i :: 0 <= i < |states| ==> now[i].items == states[i].items
    ensures forall i :: 0 <= i < |states| && i != cur ==> now[i].transitions == states[i].transitions
    ensures forall i :: |states| <= i < |now| ==> now[i].transitions == map[] && i in now[cur].transitions.Values
    ensures Explored(g, now, cur)
  {
    assert now[cur].transitions.Keys == NextSymbols(g, states[cur].items);
  }

  /** `queue` holds the state ids `base`, `base + 1`, ... up to `n - 1`, in order. */
  predicate QueueFrom(queue: seq<nat>, base: nat, n: nat) {
    base + |queue| == n && forall k :: 0 <= k < |queue| ==> queue[k] == base + k
  }

  /**
   * One visit of the queue's head `cur`: for each symbol after a dot, compute
   * `goto`, register it as a new state (appended to the states and the queue)
   * unless its item set is already known, and record the transition.
   */
  method ExpandState(g: Grammar, states: seq<State>, idMap: map<set<Item>, nat>, queue: seq<nat>,
                     cur: nat, ghost base: nat)
    returns (states': seq<State>, idMap': map<set<Item>, nat>, queue': seq<nat>)
    requires Registry(g, states, idMap) && cur < |states| && states[cur].transitions == map[]
    requires QueueFrom(queue, base, |states|)
    ensures Registry(g, states', idMap') && Expanding(g, states, states', cur, NextSymbols(g, states[cur].items), {})
    ensures QueueFrom(queue', base, |states'|)
  {
    var items := states[cur].items;
    var symbols := CollectSymbols(g, items);
    states', idMap', queue' := states, idMap, queue;
    var todo := symbols;
    ExpandingStart(g, states, cur, symbols);
    while todo != {}
      invariant Registry(g, states', idMap') && Expanding(g, states, states', cur, symbols, todo)
      invariant QueueFrom(queue', base, |states'|)
      decreases |todo|
    {
      var x :| x in todo;
      states', idMap', queue' := VisitSymbol(g, states', idMap', queue', cur, x, base, states, symbols, todo);
      todo := todo - {x};
    }
  }

  /**
   * The body of the symbol loop for symbol `x`: compute `goto`, look its item
   * set up in `idMap`, append a new state (and enqueue it) when it is unknown,
   * and set `cur.transitions[x]` to the target.
   */
  method VisitSymbol(g: Grammar, states: seq<State>, idMap: map<set<Item>, nat>, queue: seq<nat>,
                     cur: nat, x: Symbol, ghost base: nat, ghost start: seq<State>,
                     ghost symbols: set<Symbol>, ghost todo: set<Symbol>)
    returns (states': seq<State>, idMap': map<set<Item>, nat>, queue': seq<nat>)
    requires Registry(g, states, idMap) && Expanding(g, start, states, cur, symbols, todo) && x in todo
    requires QueueFrom(queue, base, |states|)
    ensures Registry(g, states', idMap') && Expanding(g, start, states', cur, symbols, todo - {x})
    ensures QueueFrom(queue', base, |states'|)
  {
    var target;
    states', idMap', queue', target := RegisterGoto(g, states, idMap, queue, cur, x, base);
    ExpandingStep(g, start, states, states', cur, symbols, todo, x, target);
  }

  /** `goto` of `cur` over `x`, found in `idMap` or appended as a new state, becomes `cur.transitions[x]`. */
  method RegisterGoto(g: Grammar, states: seq<State>, idMap: map<set<Item>, nat>, queue: seq<nat>,
                      cur: nat, x: Symbol, ghost base: nat)
    returns (states': seq<State>, idMap': map<set<Item>, nat>, queue': seq<nat>, target: nat)
    requires Registry(g, states, idMap) && cur < |states| && QueueFrom(queue, base, |states|)
    ensures Registry(g, states', idMap') && Visited(g, states, states', cur, x, target)
    ensures QueueFrom(queue', base, |states'|)
  {
    var items := states[cur].items;
    var next := Goto(g, items, x);
    GotoValid(g, items, x);
    states', idMap', queue' := states, idMap, queue;
    if next !in idMap' {
      target := |states'|;
      states' := states' + [State(next, map[], target)];
      idMap' := idMap'[next := target];
      queue' := queue' + [target];
    } else {
      target := idMap'[next];
    }
    states' := states'[cur := states'[cur].(transitions := states'[cur].transitions[x := target])];
  }

  /** Adding a fresh key keeps every value and adds the new one. */
  lemma ValueAfterUpdate(m: map<Symbol, nat>, x: Symbol, v: nat, i: nat)
    requires x !in m && (i in m.Values || i == v)
    ensures i in m[x := v].Values
  {
    if i == v {
      assert m[x := v][x] == v;
    } else {
      var y :| y in m && m[y] == i;
      assert m[x := v][y] == i;
    }
  }

  /** Appending states and adding transitions to other states leaves an expanded state expanded. */
  lemma ExploredStable(g: Grammar, a: seq<State>, b: seq<State>, i: nat)
    requires i < |a| <= |b| && Explored(g, a, i)
    requires forall t :: 0 <= t < |a| ==> b[t].items == a[t].items
    requires b[i].transitions == a[i].transitions
    ensures Explored(g, b, i)
  {
  }

  /**
   * The construction's loop invariant, with `done` states taken off the queue:
   * the bookkeeping holds, state 0 is the initial closure, the first `done`
   * states are expanded and the rest untouched, and every later state was
   * discovered from its earlier `parents` entry.
   */
  ghost predicate Bfs(g: Grammar, states: seq<State>, idMap: map<set<Item>, nat>, done: nat, parents: seq<nat>) {
    Registry(g, states, idMap) && 0 < |states| && done <= |states| && |parents| == |states|
    && states[0].items == ClosureOf(g, {Item(0, 0)})
    && (forall i :: 0 <= i < done ==> Explored(g, states, i))
    && (forall i :: done <= i < |states| ==> states[i].transitions == map[])
    && (forall j :: 0 < j < |states| ==> parents[j] < j && j in states[parents[j]].transitions.Values)
  }

  /** Expanding the next state of the queue advances the invariant by one. */
  lemma BfsStep(g: Grammar, states: seq<State>, idMap: map<set<Item>, nat>, done: nat, parents: seq<nat>,
                states': seq<State>, idMap': map<set<Item>, nat>)
    requires Bfs(g, states, idMap, done, parents) && done < |states|
    requires Registry(g, states', idMap') && Expanding(g, states, states', done, NextSymbols(g, states[done].items), {})
    ensures Bfs(g, states', idMap', done + 1, parents + seq(|states'| - |states|, _ => done))
  {
    ExpandingDone(g, states, states', done);
    forall i | 0 <= i < done ensures Explored(g, states', i) {
      ExploredStable(g, states, states', i);
    }
    ParentsStep(states, states', done, parents);
  }

  /** States appended while expanding `done` have `done` as their parent; earlier parents keep their transitions. */
  lemma ParentsStep(states: seq<State>, states': seq<State>, done: nat, parents: seq<nat>)
    requires done < |states| <= |states'| && |parents| == |states| && states[done].transitions == map[]
    requires forall j :: 0 < j < |states| ==> parents[j] < j && j in states[parents[j]].transitions.Values
    requires forall i :: 0 <= i < |states| && i != done ==> states'[i].transitions == states[i].transitions
    requires forall i :: |states| <= i < |states'| ==> i in states'[done].transitions.Values
    ensures var parents' := parents + seq(|states'| - |states|, _ => done);
            forall j :: 0 < j < |states'| ==> parents'[j] < j && j in states'[parents'[j]].transitions.Values
  {
    var parents' := parents + seq(|states'| - |states|, _ => done);
    forall j | 0 < j < |states'| ensures parents'[j] < j && j in states'[parents'[j]].transitions.Values {
      if j < |states| {
        assert parents'[j] == parents[j];
        assert parents[j] != done by {
          assert states[done].transitions.Values == {};
        }
      } else {
        assert parents'[j] == done;
      }
    }
  }

  /** With the queue empty, the invariant is the canonical collection. */
  lemma BfsComplete(g: Grammar, states: seq<State>, idMap: map<set<Item>, nat>, parents: seq<nat>)
    requires Bfs(g, states, idMap, |states|, parents)
    ensures IsCanonical(g, states)
  {
    forall j | 0 < j < |states| ensures Discovered(states, j) {
      assert parents[j] < j && j in states[parents[j]].transitions.Values;
    }
  }

  /**
   * The generator's `build_lr0_states`: start from the closure of
   * `S' -> ·start`, then take states from the front of the queue until it is
   * empty. The result is the canonical collection.
   */
  method BuildStates(g: Grammar) returns (states: seq<State>)
    requires WellFormed(g)
    ensures IsCanonical(g, states)
  {
    var i0 := Closure(g, {Item(0, 0)});
    ClosureValid(g, {Item(0, 0)});
    states := [State(i0, map[], 0)];
    var idMap := map[i0 := 0];
    var queue: seq<nat> := [0];
    ghost var done := 0;
    ghost var parents: seq<nat> := [0];
    while queue != []
      invariant Bfs(g, states, idMap, done, parents) && QueueFrom(queue, done, |states|)
      decreases |Subsets(Universe(g))| - done
    {
      RegistryBound(g, states, idMap);
      var cur := queue[0];
      queue := queue[1..];
      ghost var before, idMapBefore := states, idMap;
      states, idMap, queue := ExpandState(g, states, idMap, queue, cur, done + 1);
      BfsStep(g, before, idMapBefore, done, parents, states, idMap);
      parents := parents + seq(|states| - |before|, _ => cur);
      done := done + 1;
    }
    BfsComplete(g, states, idMap, parents);
  }

  /** The item sets of a state list. */
  function ItemSetsOf(states: seq<State>): set<set<Item>> {
    set st | st in states :: st.items
  }

  /** Every item set of one canonical collection is the item set of some state of another. */
  lemma {:induction false} CanonicalContains(g: Grammar, a: seq<State>, b: seq<State>, j: nat)
    requires IsCanonical(g, a) && IsCanonical(g, b) && j < |a|
    ensures exists k :: 0 <= k < |b| && b[k].items == a[j].items
    decreases j
  {
    if j == 0 {
      assert b[0].items == a[0].items;
    } else {
      assert Discovered(a, j);
      var i :| 0 <= i < j && i < |a| && j in a[i].transitions.Values;
      var x :| x in a[i].transitions && a[i].transitions[x] == j;
      CanonicalContains(g, a, b, i);
      var k :| 0 <= k < |b| && b[k].items == a[i].items;
      assert Explored(g, a, i) && Explored(g, b, k);
      assert x in b[k].transitions;
      var m := b[k].transitions[x];
      assert b[m].items == a[j].items;
    }
  }

  /** With distinct item sets, a state list has as many item sets as states. */
  lemma {:induction false} DistinctItemSetsCard(states: seq<State>)
    requires forall i, j :: 0 <= i < j < |states| ==> states[i].items != states[j].items
    ensures |ItemSetsOf(states)| == |states|
  {
    if states != [] {
      var init := states[..|states| - 1];
      var last := states[|states| - 1];
      DistinctItemSetsCard(init);
      assert ItemSetsOf(states) == ItemSetsOf(init) + {last.items} by {
        assert states == init + [last];
      }
      assert last.items !in ItemSetsOf(init);
    }
  }

  /**
   * The construction does not depend on the order symbols and items are
   * visited in: any two canonical collections of a grammar have the same item
   * sets and the same number of states; only the numbering can differ.
   */
  lemma CanonicalCollectionsAgree(g: Grammar, a: seq<State>, b: seq<State>)
    requires IsCanonical(g, a) && IsCanonical(g, b)
    ensures ItemSetsOf(a) == ItemSetsOf(b) && |a| == |b|
  {
    forall s | s in ItemSetsOf(a) ensures s in ItemSetsOf(b) {
      var j :| 0 <= j < |a| && a[j].items == s;
      CanonicalContains(g, a, b, j);
    }
    forall s | s in ItemSetsOf(b) ensures s in ItemSetsOf(a) {
      var j :| 0 <= j < |b| && b[j].items == s;
      CanonicalContains(g, b, a, j);
    }
    DistinctItemSetsCard(a);
    DistinctItemSetsCard(b);
  }

}
