/**
 * `closure` and `goto` of the generator. A set of items is closed when every
 * item whose dot sits before a declared non-terminal B brings in all
 * productions of B at dot 0; `ClosureOf` is the least closed superset,
 * reached by the same fixed-point iteration the generator runs.
 */
module ItemSets {
  import opened Wrappers
  import opened Grammar

  /**
   * `it` has the non-terminal B right after its dot and production `q` has left
   * side B, so closure brings in `(q, 0)`. A symbol that is not declared as a
   * non-terminal predicts nothing, even if some production has it on the left.
   */
  predicate Predicts(g: Grammar, it: Item, q: nat) {
    q < |g.prods| && NextSymbol(g, it).Some?
    && NextSymbol(g, it).value in g.nonTerms && g.prods[q].left == NextSymbol(g, it).value
  }

  /** Every item predicted by a member is a member. */
  ghost predicate Closed(g: Grammar, s: set<Item>) {
    forall it, q :: it in s && Predicts(g, it, q) ==> Item(q, 0) in s
  }

  /** The dot-0 items predicted by members of `s`: what one pass of closure adds. */
  function Predicted(g: Grammar, s: set<Item>): set<Item> {
    set it, q | it in s && 0 <= q < |g.prods| && Predicts(g, it, q) :: Item(q, 0)
  }

  /** All dot-0 items of the grammar; closure never adds anything else. */
  function ZeroItems(g: Grammar): set<Item> {
    set q | 0 <= q < |g.prods| :: Item(q, 0)
  }

  /** `x <= y` bounds the cardinalities, strictly when `x < y`. */
  lemma SubsetCard<T>(x: set<T>, y: set<T>)
    requires x <= y
    ensures |x| <= |y| && (x < y ==> |x| < |y|)
  {
    assert y == x + (y - x);
    assert (y - x == {}) ==> y == x;
  }

  /**
   * The closure of `items`: add the predicted items until nothing new comes in.
   * The result contains `items` and adds only dot-0 items; `ClosureClosed` and
   * `ClosureAddsPredicted` say what else it is.
   */
  ghost function ClosureOf(g: Grammar, items: set<Item>): (r: set<Item>)
    ensures items <= r && r - items <= ZeroItems(g)
    decreases |ZeroItems(g) - items|
  {
    var next := items + Predicted(g, items);
    if next == items then items
    else
      SubsetCard(ZeroItems(g) - next, ZeroItems(g) - items);
      ClosureOf(g, next)
  }

  /** The closure is closed: every item predicted by a member is a member. */
  lemma {:induction false} ClosureClosed(g: Grammar, items: set<Item>)
    ensures Closed(g, ClosureOf(g, items))
    decreases |ZeroItems(g) - items|
  {
    var next := items + Predicted(g, items);
    if next == items {
      forall it, q | it in items && Predicts(g, it, q) ensures Item(q, 0) in items {
        assert Item(q, 0) in Predicted(g, items);
      }
    } else {
      SubsetCard(ZeroItems(g) - next, ZeroItems(g) - items);
      ClosureClosed(g, next);
    }
  }

  /** Everything the closure adds is a dot-0 item predicted by one of its members. */
  lemma {:induction false} ClosureAddsPredicted(g: Grammar, items: set<Item>)
    ensures forall it :: it in ClosureOf(g, items) - items ==>
              it.dot == 0 && exists src :: src in ClosureOf(g, items) && Predicts(g, src, it.prod)
    decreases |ZeroItems(g) - items|
  {
    var next := items + Predicted(g, items);
    if next != items {
      SubsetCard(ZeroItems(g) - next, ZeroItems(g) - items);
      ClosureAddsPredicted(g, next);
      var c := ClosureOf(g, items);
      assert c == ClosureOf(g, next);
      forall it | it in c - items
        ensures it.dot == 0 && exists src :: src in c && Predicts(g, src, it.prod)
      {
        if it in next - items {
          var src, q :| src in items && 0 <= q < |g.prods| && Predicts(g, src, q) && it == Item(q, 0);
          assert src in c;
        }
      }
    }
  }

  /** Closure only adds dot-0 items of existing productions, so it keeps items valid. */
  lemma ClosureValid(g: Grammar, items: set<Item>)
    requires ValidItems(g, items)
    ensures ValidItems(g, ClosureOf(g, items))
  {
    var c := ClosureOf(g, items);
    forall it | it in c ensures ValidItem(g, it) {
      if it !in items {
        assert it in ZeroItems(g);
      }
    }
  }

  /** `ClosureOf` is the least closed superset: it lies inside every closed set containing `items`. */
  lemma {:induction false} ClosureLeast(g: Grammar, items: set<Item>, s: set<Item>)
    requires items <= s && Closed(g, s)
    ensures ClosureOf(g, items) <= s
    decreases |ZeroItems(g) - items|
  {
    var next := items + Predicted(g, items);
    if next != items {
      assert Predicted(g, items) <= s;
      SubsetCard(ZeroItems(g) - next, ZeroItems(g) - items);
      ClosureLeast(g, next, s);
    }
  }

  /** A closed set is its own closure. */
  lemma ClosureOfClosed(g: Grammar, s: set<Item>)
    requires Closed(g, s)
    ensures ClosureOf(g, s) == s
  {
    ClosureLeast(g, s, s);
  }

  /** `closure(closure(I)) == closure(I)`. */
  lemma ClosureIdempotent(g: Grammar, items: set<Item>)
    ensures ClosureOf(g, ClosureOf(g, items)) == ClosureOf(g, items)
  {
    ClosureClosed(g, items);
    ClosureOfClosed(g, ClosureOf(g, items));
  }

  /** Closure is monotone: a larger kernel has a larger closure. */
  lemma ClosureMonotone(g: Grammar, a: set<Item>, b: set<Item>)
    requires a <= b
    ensures ClosureOf(g, a) <= ClosureOf(g, b)
  {
    ClosureClosed(g, b);
    ClosureLeast(g, a, ClosureOf(g, b));
  }

  /**
   * The innermost loop of `closure` for one item whose next symbol is the
   * non-terminal `b`: add `(p.id, 0)` for every production `p` of `b` not yet
   * present. `target` is a closed set the additions stay within.
   */
  method AddPredictions(g: Grammar, items: set<Item>, item: Item, b: Symbol, ghost target: set<Item>)
    returns (next: set<Item>, added: bool)
    requires WellFormed(g) && NextSymbol(g, item) == Some(b) && b in g.nonTerms
    requires items <= target && forall q :: Predicts(g, item, q) ==> Item(q, 0) in target
    ensures items <= next <= target && next - items <= ZeroItems(g)
    ensures added <==> next != items
    ensures forall q :: Predicts(g, item, q) ==> Item(q, 0) in next
  {
    next := items;
    added := false;
    for j := 0 to |g.prods|
      invariant items <= next <= target && next - items <= ZeroItems(g)
      invariant added <==> next != items
      invariant forall q :: 0 <= q < j && g.prods[q].left == b ==> Item(q, 0) in next
    {
      var p := g.prods[j];
      if p.left == b {
        assert Predicts(g, item, j);
        var newItem := Item(p.id, 0);
        if newItem !in next {
          next := next + {newItem};
          added := true;
        }
      }
    }
  }

  /**
   * One pass of `closure` over a snapshot of the set: every item of the snapshot
   * gets its predictions added. `changed` tells whether anything was added.
   */
  method ClosurePass(g: Grammar, curr: set<Item>, ghost target: set<Item>) returns (items: set<Item>, changed: bool)
    requires WellFormed(g) && ValidItems(g, curr) && curr <= target && Closed(g, target)
    ensures curr <= items <= target && items - curr <= ZeroItems(g)
    ensures changed <==> items != curr
    ensures forall it, q :: it in curr && Predicts(g, it, q) ==> Item(q, 0) in items
  {
    changed := false;
    items := curr;
    var todo := curr;
    while todo != {}
      invariant todo <= curr <= items <= target
      invariant items - curr <= ZeroItems(g)
      invariant changed <==> items != curr
      invariant forall it, q :: it in curr - todo && Predicts(g, it, q) ==> Item(q, 0) in items
      decreases |todo|
    {
      var item :| item in todo;
      ghost var scanned := todo;
      todo := todo - {item};
      var r := g.prods[item.prod].right;
      if item.dot >= |r| {
        continue;
      }
      var b := r[item.dot];
      if b !in g.nonTerms {
        continue;
      }
      var added;
      items, added := AddPredictions(g, items, item, b, target);
      if added {
        changed := true;
      }
      forall it, q | it in curr - todo && Predicts(g, it, q) ensures Item(q, 0) in items {
        if it != item {
          assert it in curr - scanned;
        }
      }
    }
  }

  /**
   * The generator's `closure`: repeated passes over a snapshot of the set, each
   * adding `(p.id, 0)` for every production `p` of a non-terminal after a dot,
   * until a pass adds nothing.
   */
  method Closure(g: Grammar, kernel: set<Item>) returns (items: set<Item>)
    requires WellFormed(g) && ValidItems(g, kernel)
    ensures items == ClosureOf(g, kernel)
  {
    ghost var target := ClosureOf(g, kernel);
    ClosureClosed(g, kernel);
    ClosureValid(g, kernel);
    items := kernel;
    var changed := true;
    while changed
      invariant kernel <= items <= target && ValidItems(g, items)
      invariant !changed ==> Closed(g, items)
      decreases |ZeroItems(g) - items| + (if changed then 1 else 0)
    {
      var curr := items;
      items, changed := ClosurePass(g, curr, target);
      if changed {
        SubsetCard(ZeroItems(g) - items, ZeroItems(g) - curr);
      }
    }
    ClosureLeast(g, kernel, items);
  }

  /** The items of `items` with `x` right after the dot, with the dot moved over it: the kernel of `goto`. */
  function Advance(g: Grammar, items: set<Item>, x: Symbol): set<Item> {
    set it | it in items && NextSymbol(g, it) == Some(x) :: Item(it.prod, it.dot + 1)
  }

  /** `goto(I, X)`: the closure of the advanced items. */
  ghost function GotoOf(g: Grammar, items: set<Item>, x: Symbol): set<Item> {
    ClosureOf(g, Advance(g, items, x))
  }

  /** The items with the dot past the start of the right side. */
  function Kernel(s: set<Item>): set<Item> {
    set it | it in s && it.dot > 0
  }

  /** The first half of the generator's `goto`: collect the items with the dot moved over `x`. */
  method AdvanceItems(g: Grammar, items: set<Item>, x: Symbol) returns (moved: set<Item>)
    requires ValidItems(g, items)
    ensures moved == Advance(g, items, x)
  {
    moved := {};
    var todo := items;
    ghost var scanned: set<Item> := {};
    while todo != {}
      invariant scanned + todo == items
      invariant moved == Advance(g, scanned, x)
      decreases |todo|
    {
      var item :| item in todo;
      todo := todo - {item};
      AdvanceAddOne(g, scanned, item, x);
      scanned := scanned + {item};
      var rhs := g.prods[item.prod].right;
      if item.dot < |rhs| && rhs[item.dot] == x {
        moved := moved + {Item(item.prod, item.dot + 1)};
      }
    }
  }

  /** The generator's `goto`: advance the dot over `x` in every item that allows it, then close. */
  method Goto(g: Grammar, items: set<Item>, x: Symbol) returns (r: set<Item>)
    requires WellFormed(g) && ValidItems(g, items)
    ensures r == GotoOf(g, items, x)
  {
    var moved := AdvanceItems(g, items, x);
    AdvanceValid(g, items, x);
    r := Closure(g, moved);
  }

  /** One more scanned item adds its advanced form to `Advance` when `x` follows its dot, and nothing otherwise. */
  lemma AdvanceAddOne(g: Grammar, scanned: set<Item>, it: Item, x: Symbol)
    ensures Advance(g, scanned + {it}, x)
         == Advance(g, scanned, x) + (if NextSymbol(g, it) == Some(x) then {Item(it.prod, it.dot + 1)} else {})
  {
  }

  /** Moving the dot over the next symbol keeps it within `0..len(right)`. */
  lemma AdvanceValid(g: Grammar, items: set<Item>, x: Symbol)
    ensures ValidItems(g, Advance(g, items, x))
  {
  }

  /** `goto(I, X)` stays within valid items. */
  lemma GotoValid(g: Grammar, items: set<Item>, x: Symbol)
    ensures ValidItems(g, GotoOf(g, items, x))
  {
    AdvanceValid(g, items, x);
    ClosureValid(g, Advance(g, items, x));
  }

  /** The closure of the empty set is empty. */
  lemma ClosureEmpty(g: Grammar)
    ensures ClosureOf(g, {}) == {}
  {
    assert Predicted(g, {}) == {};
  }

  /** `goto(I, X)` is empty exactly when no item of `I` has `X` right after its dot. */
  lemma GotoEmptyIff(g: Grammar, items: set<Item>, x: Symbol)
    ensures GotoOf(g, items, x) == {} <==> x !in NextSymbols(g, items)
  {
    if x in NextSymbols(g, items) {
      var it :| it in items && NextSymbol(g, it) == Some(x);
      assert Item(it.prod, it.dot + 1) in Advance(g, items, x);
    } else {
      assert Advance(g, items, x) == {};
      ClosureEmpty(g);
    }
  }

  /** The kernel of `goto(I, X)` is exactly the advanced items: closure adds only dot-0 items. */
  lemma GotoKernel(g: Grammar, items: set<Item>, x: Symbol)
    ensures Kernel(GotoOf(g, items, x)) == Advance(g, items, x)
  {
    var a := Advance(g, items, x);
    var c := GotoOf(g, items, x);
    forall it | it in c - a ensures it.dot == 0 {
      assert it in ZeroItems(g);
    }
  }

}
