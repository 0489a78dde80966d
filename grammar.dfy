/**
 * The grammar model shared by the generator and the driver: symbols are
 * strings, a production is a left side, a right side (possibly empty) and an
 * id, and an LR(0) item is a production id with a dot position. Items are
 * values, so two items are equal exactly when their production ids and dots
 * are (the `__eq__`/`__hash__` pair of the Python `Item` class).
 */
module Grammar {
  import opened Wrappers

  type Symbol = string

  datatype Production = Production(left: Symbol, right: seq<Symbol>, id: int)

  /** `A -> α·β`: the production with id `prod`, the dot before its `dot`-th right-side symbol. */
  datatype Item = Item(prod: nat, dot: nat)

  /** The augmented productions with the declared non-terminals and terminals. */
  datatype Grammar = Grammar(prods: seq<Production>, nonTerms: set<Symbol>, terms: set<Symbol>)

  /** Left side of the synthesised production 0. */
  const AugmentedStart: Symbol := "S'"

  /** The end-of-input marker appended to every sentence and used for accept and reduce rows. */
  const EndMarker: Symbol := "#"

  /** Every `prods[item.prod_id]` lookup relies on this: a production's id is its index. */
  predicate IdsAreIndices(prods: seq<Production>) {
    forall i :: 0 <= i < |prods| ==> prods[i].id == i
  }

  /** The shape every augmented grammar has: production 0 exists and ids are indices. */
  predicate WellFormed(g: Grammar) {
    |g.prods| > 0 && IdsAreIndices(g.prods)
  }

  /** The item names an existing production and its dot lies in `0..len(right)`. */
  predicate ValidItem(g: Grammar, it: Item) {
    it.prod < |g.prods| && it.dot <= |g.prods[it.prod].right|
  }

  predicate ValidItems(g: Grammar, items: set<Item>) {
    forall it :: it in items ==> ValidItem(g, it)
  }

  /** A reduce item: the dot is at the end of the right side. */
  predicate Complete(g: Grammar, it: Item) {
    it.prod < |g.prods| && it.dot == |g.prods[it.prod].right|
  }

  /** `items` holds the complete item of production `p`: the state can reduce by `p`. */
  predicate ReducesBy(g: Grammar, items: set<Item>, p: nat) {
    p < |g.prods| && Item(p, |g.prods[p].right|) in items
  }

  /** The symbol right after the dot, if the dot is not at the end. */
  function NextSymbol(g: Grammar, it: Item): Option<Symbol> {
    if it.prod < |g.prods| && it.dot < |g.prods[it.prod].right| then
      Some(g.prods[it.prod].right[it.dot])
    else None
  }

  /** The symbols that follow a dot somewhere in `items`: the alphabet of a state's transitions. */
  function NextSymbols(g: Grammar, items: set<Item>): set<Symbol> {
    set it | it in items && NextSymbol(g, it).Some? :: NextSymbol(g, it).value
  }

}
