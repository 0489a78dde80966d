/**
 * `is_lr0`: a state has a conflict when it holds complete items of two
 * different productions (reduce-reduce) or a complete item together with a
 * transition on a terminal (shift-reduce). The augmentation item `S' -> S·`
 * counts as a complete item like any other.
 */
module Conflicts {
  import opened Wrappers
  import opened Grammar
  import opened Automaton

  /** Complete items of two different productions. */
  ghost predicate ReduceReduce(g: Grammar, items: set<Item>) {
    exists p, q :: ReducesBy(g, items, p) && ReducesBy(g, items, q) && p != q
  }

  /** Some item of the state is complete. */
  ghost predicate Reduces(g: Grammar, items: set<Item>) {
    exists p :: ReducesBy(g, items, p)
  }

  /** A complete item and a transition on a terminal. */
  ghost predicate ShiftReduce(g: Grammar, st: State) {
    Reduces(g, st.items) && exists x :: x in st.transitions && x in g.terms
  }

  ghost predicate HasConflict(g: Grammar, st: State) {
    ReduceReduce(g, st.items) || ShiftReduce(g, st)
  }

  /** The grammar is LR(0): no state of the collection has a conflict. */
  ghost predicate ConflictFree(g: Grammar, states: seq<State>) {
    forall i :: 0 <= i < |states| ==> !HasConflict(g, states[i])
  }

  /** Every item names an existing production, so `prods[item.prod_id]` never raises. */
  predicate ItemsIndexProds(g: Grammar, states: seq<State>) {
    forall i :: 0 <= i < |states| ==> forall it :: it in states[i].items ==> it.prod < |g.prods|
  }

  /**
   * The item scan of one state: `reduce_prod` remembers the production of the
   * first complete item, and a complete item of another production is a
   * reduce-reduce conflict (the early `return False`).
   */
  method ScanReduceItems(g: Grammar, items: set<Item>) returns (clash: bool, reduceProd: Option<nat>)
    requires forall it :: it in items ==> it.prod < |g.prods|
    ensures clash <==> ReduceReduce(g, items)
    ensures !clash ==> (reduceProd.Some? <==> Reduces(g, items))
  {
    reduceProd := None;
    var todo := items;
    ghost var scanned: set<Item> := {};
    while todo != {}
      invariant scanned + todo == items && scanned !! todo
      invariant forall p: nat :: ReducesBy(g, scanned, p) ==> reduceProd == Some(p)
      invariant reduceProd.Some? ==> ReducesBy(g, scanned, reduceProd.value)
      decreases |todo|
    {
      var item :| item in todo;
      todo := todo - {item};
      scanned := scanned + {item};
      if item.dot == |g.prods[item.prod].right| {
        assert item == Item(item.prod, |g.prods[item.prod].right|);
        if reduceProd.Some? && reduceProd.value != item.prod {
          assert ReducesBy(g, items, reduceProd.value) && ReducesBy(g, items, item.prod);
          return true, reduceProd;
        }
        reduceProd := Some(item.prod);
      }
    }
    clash := false;
  }

  /** The transition scan of a state with a reduce item: is any transition on a terminal? */
  method HasTerminalTransition(transitions: map<Symbol, nat>, terms: set<Symbol>) returns (found: bool)
    ensures found <==> exists x :: x in transitions && x in terms
  {
    var todo := transitions.Keys;
    while todo != {}
      invariant todo <= transitions.Keys
      invariant forall x :: x in transitions && x !in todo ==> x !in terms
      decreases |todo|
    {
      var sym :| sym in todo;
      todo := todo - {sym};
      if sym in terms {
        return true;
      }
    }
    found := false;
  }

  /** The generator's `is_lr0`: true exactly when no state has a conflict. */
  method IsLr0(g: Grammar, states: seq<State>) returns (ok: bool)
    requires ItemsIndexProds(g, states)
    ensures ok <==> ConflictFree(g, states)
  {
    for i := 0 to |states|
      invariant forall k :: 0 <= k < i ==> !HasConflict(g, states[k])
    {
      var clash, reduceProd := ScanReduceItems(g, states[i].items);
      if clash {
        assert HasConflict(g, states[i]);
        return false;
      }
      if reduceProd.Some? {
        var shift := HasTerminalTransition(states[i].transitions, g.terms);
        if shift {
          assert HasConflict(g, states[i]);
          return false;
        }
      }
    }
    ok := true;
  }

  /** Canonical collections carry valid items, so the scan can run on them. */
  lemma CanonicalIndexesProds(g: Grammar, states: seq<State>)
    requires IsCanonical(g, states)
    ensures ItemsIndexProds(g, states)
  {
    forall i, it | 0 <= i < |states| && it in states[i].items ensures it.prod < |g.prods| {
      assert ValidItems(g, states[i].items);
    }
  }

}
