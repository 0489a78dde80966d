/**
 * The driver's `analyze_one_string`: a stack machine over a state stack, a
 * symbol stack and an input cursor, driven by the action and goto
 * dictionaries. `Step` is one turn of its `while True` loop and `Run` at most
 * `fuel` turns of it; the loop has no bound of its own, since an action that
 * is none of `acc`, `s<N>`, `r<N>` changes nothing and a malformed table can
 * cycle. The method returns `Accepted` for `return True`, `Rejected` for
 * `return False`, `Raised` where Python raises (an empty state stack, the
 * cursor past the tokens, an action number that is not an integer, a
 * production index out of range) and `OutOfFuel` when the turns run out.
 */
module Driver {
  import opened Wrappers
  import opened Text
  import opened Grammar
  import opened Rows
  import opened Table

  datatype Config = Config(states: seq<int>, symbols: seq<Symbol>, ip: nat)

  datatype Outcome = Accepted | Rejected | Raised | OutOfFuel

  /** One turn of the loop: go on from a new configuration, or stop with an outcome. */
  datatype Turn = Continue(next: Config) | Halt(outcome: Outcome)

  /** `sentence.split() if sentence.strip() else []`, then the end marker. */
  function Tokens(sentence: string): (tokens: seq<Symbol>)
    ensures tokens == Split(sentence) + [EndMarker]
    ensures Strip(sentence) == [] ==> tokens == [EndMarker]
  {
    var words := if Strip(sentence) == [] then [] else Split(sentence);
    StripEmptyIsBlank(sentence);
    SplitBlank(sentence);
    assert words == Split(sentence);
    words + [EndMarker]
  }

  /** State stack `[0]`, empty symbol stack, cursor on the first token. */
  const Initial: Config := Config([0], [], 0)

  /** Python's `prods[rid]`: a negative index counts from the end; `None` is the `IndexError`. */
  function ProductionAt(prods: seq<Production>, rid: int): Option<Production> {
    if 0 <= rid < |prods| then Some(prods[rid])
    else if -|prods| <= rid < 0 then Some(prods[|prods| + rid])
    else None
  }

  function Min(a: nat, b: nat): nat {
    if a <= b then a else b
  }

  /** `n` guarded pops: `if stack: stack.pop()` each time, so never more than the stack holds. */
  function PopUpTo<T>(s: seq<T>, n: nat): seq<T> {
    s[..|s| - Min(n, |s|)]
  }

  /** `act.startswith(c)`. */
  predicate StartsWith(act: string, c: char) {
    |act| > 0 && act[0] == c
  }

  /** The reduce branch, after the production has been found. */
  function Reduce(goto: map<Key, int>, c: Config, prod: Production): Turn {
    var n := |prod.right|;
    var states := PopUpTo(c.states, n);
    var symbols := PopUpTo(c.symbols, n) + [prod.left];
    if states == [] then Halt(Raised)
    else
      var prev := states[|states| - 1];
      if (prev, prod.left) !in goto then Halt(Rejected)
      else Continue(Config(states + [goto[(prev, prod.left)]], symbols, c.ip))
  }

  /** One turn of `while True`. */
  function Step(prods: seq<Production>, action: map<Key, string>, goto: map<Key, int>,
                tokens: seq<Symbol>, c: Config): Turn
  {
    if c.states == [] || c.ip >= |tokens| then Halt(Raised)
    else
      var s := c.states[|c.states| - 1];
      var a := tokens[c.ip];
      if (s, a) !in action then Halt(Rejected)
      else
        var act := action[(s, a)];
        if act == AcceptAction then Halt(Accepted)
        else if StartsWith(act, 's') then
          match ParseInt(act[1..])
          case None => Halt(Raised)
          case Some(t) => Continue(Config(c.states + [t], c.symbols + [a], c.ip + 1))
        else if StartsWith(act, 'r') then
          match ParseInt(act[1..])
          case None => Halt(Raised)
          case Some(rid) =>
            match ProductionAt(prods, rid)
            case None => Halt(Raised)
            case Some(prod) => Reduce(goto, c, prod)
        else Continue(c)
  }

  /** At most `fuel` turns from `c`. */
  function Run(prods: seq<Production>, action: map<Key, string>, goto: map<Key, int>,
               tokens: seq<Symbol>, c: Config, fuel: nat): Outcome
    decreases fuel
  {
    if fuel == 0 then OutOfFuel
    else
      match Step(prods, action, goto, tokens, c)
      case Halt(o) => o
      case Continue(next) => Run(prods, action, goto, tokens, next, fuel - 1)
  }

  /** The pop loop `for _ in range(beta_len)` of the reduce branch. */
  method PopBoth(states: seq<int>, symbols: seq<Symbol>, n: nat) returns (states': seq<int>, symbols': seq<Symbol>)
    ensures states' == PopUpTo(states, n) && symbols' == PopUpTo(symbols, n)
  {
    states', symbols' := states, symbols;
    for k := 0 to n
      invariant states' == PopUpTo(states, k) && symbols' == PopUpTo(symbols, k)
    {
      if states' != [] { states' := states'[..|states'| - 1]; }
      if symbols' != [] { symbols' := symbols'[..|symbols'| - 1]; }
    }
  }

  /** The reduce branch of the loop body once the production is known. */
  method ReduceTurn(goto: map<Key, int>, stateStack: seq<int>, symbolStack: seq<Symbol>, ip: nat, prod: Production)
    returns (turn: Turn)
    ensures turn == Reduce(goto, Config(stateStack, symbolStack, ip), prod)
  {
    var states, symbols := PopBoth(stateStack, symbolStack, |prod.right|);
    symbols := symbols + [prod.left];
    if states == [] { return Halt(Raised); }
    var prev := states[|states| - 1];
    if (prev, prod.left) !in goto { return Halt(Rejected); }
    turn := Continue(Config(states + [goto[(prev, prod.left)]], symbols, ip));
  }

  /** The body of `while True`: one turn from the current stacks and cursor. */
  method TakeTurn(prods: seq<Production>, action: map<Key, string>, goto: map<Key, int>,
                  tokens: seq<Symbol>, stateStack: seq<int>, symbolStack: seq<Symbol>, ip: nat)
    returns (turn: Turn)
    ensures turn == Step(prods, action, goto, tokens, Config(stateStack, symbolStack, ip))
  {
    if stateStack == [] || ip >= |tokens| { return Halt(Raised); }
    var s := stateStack[|stateStack| - 1];
    var a := tokens[ip];
    if (s, a) !in action { return Halt(Rejected); }
    var act := action[(s, a)];
    if act == AcceptAction {
      turn := Halt(Accepted);
    } else if StartsWith(act, 's') {
      var t := ParseInt(act[1..]);
      if t.None? { return Halt(Raised); }
      turn := Continue(Config(stateStack + [t.value], symbolStack + [a], ip + 1));
    } else if StartsWith(act, 'r') {
      var rid := ParseInt(act[1..]);
      if rid.None? { return Halt(Raised); }
      var prod := ProductionAt(prods, rid.value);
      if prod.None? { return Halt(Raised); }
      turn := ReduceTurn(goto, stateStack, symbolStack, ip, prod.value);
    } else {
      turn := Continue(Config(stateStack, symbolStack, ip));
    }
  }

  /**
   * `analyze_one_string` without its printing, for at most `fuel` turns of
   * the loop: the outcome is that of the step function run from the initial
   * configuration over the sentence's tokens.
   */
  method AnalyzeOneString(sentence: string, prods: seq<Production>, action: map<Key, string>,
                          goto: map<Key, int>, fuel: nat) returns (outcome: Outcome)
    ensures outcome == Run(prods, action, goto, Tokens(sentence), Initial, fuel)
  {
    var tokens: seq<Symbol> := if Strip(sentence) != [] then Split(sentence) else [];
    tokens := tokens + [EndMarker];
    var ip: nat := 0;
    var stateStack: seq<int> := [0];
    var symbolStack: seq<Symbol> := [];
    var turns := fuel;
    while turns > 0
      invariant Run(prods, action, goto, tokens, Config(stateStack, symbolStack, ip), turns)
             == Run(prods, action, goto, tokens, Initial, fuel)
      decreases turns
    {
      var turn := TakeTurn(prods, action, goto, tokens, stateStack, symbolStack, ip);
      turns := turns - 1;
      match turn
      case Halt(o) => return o;
      case Continue(c) => stateStack, symbolStack, ip := c.states, c.symbols, c.ip;
    }
    outcome := OutOfFuel;
  }

  /** More fuel does not change an outcome that was reached. */
  lemma {:induction false} RunMonotone(prods: seq<Production>, action: map<Key, string>, goto: map<Key, int>,
                                       tokens: seq<Symbol>, c: Config, fuel: nat, more: nat)
    requires Run(prods, action, goto, tokens, c, fuel) != OutOfFuel
    ensures Run(prods, action, goto, tokens, c, fuel + more) == Run(prods, action, goto, tokens, c, fuel)
    decreases fuel
  {
    match Step(prods, action, goto, tokens, c)
    case Halt(o) =>
    case Continue(next) =>
      RunMonotone(prods, action, goto, tokens, next, fuel - 1, more);
  }

  /** The state stack is one longer than the symbol stack. */
  predicate Balanced(c: Config) {
    |c.states| == |c.symbols| + 1
  }

  /**
   * Every turn that goes on keeps the stacks balanced: a reduce that would
   * pop more than the symbol stack holds empties the state stack and raises.
   */
  lemma StepKeepsBalance(prods: seq<Production>, action: map<Key, string>, goto: map<Key, int>,
                         tokens: seq<Symbol>, c: Config)
    requires Balanced(c)
    requires Step(prods, action, goto, tokens, c).Continue?
    ensures Balanced(Step(prods, action, goto, tokens, c).next)
  {
    var s := c.states[|c.states| - 1];
    var act := action[(s, tokens[c.ip])];
    if act != AcceptAction && !StartsWith(act, 's') && StartsWith(act, 'r') {
      var prod := ProductionAt(prods, ParseInt(act[1..]).value).value;
      assert |PopUpTo(c.states, |prod.right|)| == |c.states| - Min(|prod.right|, |c.states|);
    }
  }

  /** Every configuration a run passes through is balanced; the initial one is. */
  lemma {:induction false} RunKeepsBalance(prods: seq<Production>, action: map<Key, string>, goto: map<Key, int>,
                                           tokens: seq<Symbol>, c: Config, fuel: nat)
    requires Balanced(c)
    ensures Balanced(Reached(prods, action, goto, tokens, c, fuel))
    decreases fuel
  {
    if fuel > 0 && Step(prods, action, goto, tokens, c).Continue? {
      StepKeepsBalance(prods, action, goto, tokens, c);
      RunKeepsBalance(prods, action, goto, tokens, Step(prods, action, goto, tokens, c).next, fuel - 1);
    }
  }

  /** The configuration after at most `fuel` turns, where the run stops or the fuel ends. */
  function Reached(prods: seq<Production>, action: map<Key, string>, goto: map<Key, int>,
                   tokens: seq<Symbol>, c: Config, fuel: nat): Config
    decreases fuel
  {
    if fuel == 0 then c
    else
      match Step(prods, action, goto, tokens, c)
      case Halt(_) => c
      case Continue(next) => Reached(prods, action, goto, tokens, next, fuel - 1)
  }

  /** No entry for (top state, current token): `return False`. */
  lemma MissingActionRejects(prods: seq<Production>, action: map<Key, string>, goto: map<Key, int>,
                             tokens: seq<Symbol>, c: Config)
    requires c.states != [] && c.ip < |tokens|
    requires (c.states[|c.states| - 1], tokens[c.ip]) !in action
    ensures Step(prods, action, goto, tokens, c) == Halt(Rejected)
  {
  }

  /** `acc` for (top state, current token): `return True`. */
  lemma AcceptEntryAccepts(prods: seq<Production>, action: map<Key, string>, goto: map<Key, int>,
                           tokens: seq<Symbol>, c: Config)
    requires c.states != [] && c.ip < |tokens|
    requires (c.states[|c.states| - 1], tokens[c.ip]) in action
    requires action[(c.states[|c.states| - 1], tokens[c.ip])] == AcceptAction
    ensures Step(prods, action, goto, tokens, c) == Halt(Accepted)
  {
  }

  /** A compiled `s<t>` entry pushes `t` and the current token and advances the cursor by one. */
  lemma ShiftEntryShifts(prods: seq<Production>, action: map<Key, string>, goto: map<Key, int>,
                         tokens: seq<Symbol>, c: Config, t: nat)
    requires c.states != [] && c.ip < |tokens|
    requires (c.states[|c.states| - 1], tokens[c.ip]) in action
    requires action[(c.states[|c.states| - 1], tokens[c.ip])] == ShiftAction(t)
    ensures Step(prods, action, goto, tokens, c)
         == Continue(Config(c.states + [t], c.symbols + [tokens[c.ip]], c.ip + 1))
  {
    assert ShiftAction(t)[1..] == NatToString(t);
    ParseNatToString(t);
  }

  /**
   * A compiled `r<p>` entry for a production of the list pops `|right|`
   * entries from each stack (as many as there are), pushes the left side and
   * the goto target of the uncovered state, and leaves the cursor; a missing
   * goto entry is `return False`.
   */
  lemma ReduceEntryReduces(prods: seq<Production>, action: map<Key, string>, goto: map<Key, int>,
                           tokens: seq<Symbol>, c: Config, p: nat)
    requires c.states != [] && c.ip < |tokens| && p < |prods|
    requires (c.states[|c.states| - 1], tokens[c.ip]) in action
    requires action[(c.states[|c.states| - 1], tokens[c.ip])] == ReduceAction(p)
    ensures Step(prods, action, goto, tokens, c) == Reduce(goto, c, prods[p])
  {
    assert ReduceAction(p)[1..] == NatToString(p);
    ParseNatToString(p);
  }

  /** On a balanced configuration, a reduce by a production no longer than the symbol stack never raises. */
  lemma ReduceWithinStack(goto: map<Key, int>, c: Config, prod: Production)
    requires Balanced(c) && |prod.right| <= |c.symbols|
    ensures Reduce(goto, c, prod) != Halt(Raised)
    ensures Reduce(goto, c, prod).Continue? ==> Balanced(Reduce(goto, c, prod).next)
  {
    assert |PopUpTo(c.states, |prod.right|)| == |c.states| - |prod.right|;
  }

  /** An entry that is none of `acc`, `s...`, `r...` changes nothing, so the loop never ends. */
  lemma {:induction false} UnknownEntryLoops(prods: seq<Production>, action: map<Key, string>, goto: map<Key, int>,
                                             tokens: seq<Symbol>, c: Config, fuel: nat)
    requires c.states != [] && c.ip < |tokens|
    requires (c.states[|c.states| - 1], tokens[c.ip]) in action
    requires var act := action[(c.states[|c.states| - 1], tokens[c.ip])];
             act != AcceptAction && !StartsWith(act, 's') && !StartsWith(act, 'r')
    ensures Run(prods, action, goto, tokens, c, fuel) == OutOfFuel
    decreases fuel
  {
    if fuel > 0 {
      UnknownEntryLoops(prods, action, goto, tokens, c, fuel - 1);
    }
  }

}
