/**
 * The line-processing part of `read_grammar`, in the generator (exp7) and in
 * the driver (exp9), over the file's lines as already read: stripped, blank
 * lines dropped. The layout is: non-terminal count, non-terminals, terminal
 * count, terminals, production count, that many production lines, start
 * symbol. Both readers then put the augmentation `S' -> start` in front.
 * A reader that would raise (`IndexError` on a missing line or on an
 * arrow-only production line, `ValueError` on a count that is not an integer)
 * returns `None`.
 */
module GrammarReader {
  import opened Wrappers
  import opened Text
  import opened Grammar

  /**
   * One production line: arrows erased, then split on whitespace; the first word
   * is the left side and the remaining words the right side (none for `A ->`).
   * `None` is the `IndexError` of `parts[0]` on a line that held only arrows.
   */
  function ParseProduction(line: string): Option<(Symbol, seq<Symbol>)> {
    var parts := Split(EraseArrows(line));
    if parts == [] then None else Some((parts[0], parts[1..]))
  }

  /** The lines a reader gets through without raising. The two symbol-count lines are parsed and otherwise unused. */
  predicate GrammarLinesOk(lines: seq<string>) {
    |lines| >= 5 && ParseInt(lines[0]).Some? && ParseInt(lines[2]).Some? && CountOf(lines[4]).Some?
    && var n := CountOf(lines[4]).value;
       |lines| > 5 + n && forall k :: 5 <= k < 5 + n ==> ParseProduction(lines[k]).Some?
  }

  function ProductionCount(lines: seq<string>): nat
    requires GrammarLinesOk(lines)
  {
    CountOf(lines[4]).value
  }

  /** The start symbol: the whole stripped line after the productions. */
  function StartSymbol(lines: seq<string>): Symbol
    requires GrammarLinesOk(lines)
  {
    Strip(lines[5 + ProductionCount(lines)])
  }

  /**
   * `prods` is the augmented list read from `lines`: `S' -> [start]` with id 0
   * at index 0, then the j-th listed production at index j + 1 with id j + 1.
   */
  ghost predicate IsAugmentation(prods: seq<Production>, lines: seq<string>)
    requires GrammarLinesOk(lines)
  {
    var n := ProductionCount(lines);
    |prods| == n + 1
    && prods[0] == Production(AugmentedStart, [StartSymbol(lines)], 0)
    && forall j :: 1 <= j <= n ==>
         prods[j] == Production(ParseProduction(lines[4 + j]).value.0, ParseProduction(lines[4 + j]).value.1, j)
  }

  /** The list an augmentation describes is unique, so both readers build the same productions. */
  lemma AugmentationUnique(p: seq<Production>, q: seq<Production>, lines: seq<string>)
    requires GrammarLinesOk(lines)
    requires IsAugmentation(p, lines) && IsAugmentation(q, lines)
    ensures p == q
  {
    forall i | 0 <= i < |p| ensures p[i] == q[i] {
    }
  }

  /** An augmented list has production 0 first and every id equal to its index. */
  lemma AugmentationWellFormed(prods: seq<Production>, lines: seq<string>)
    requires GrammarLinesOk(lines) && IsAugmentation(prods, lines)
    ensures IdsAreIndices(prods)
    ensures prods[0].left == AugmentedStart && prods[0].right == [StartSymbol(lines)]
  {
    forall i | 0 <= i < |prods| ensures prods[i].id == i {
    }
  }

  /** The listed productions, put behind `S' -> start` and renumbered, are the augmentation. */
  lemma AugmentationOfListed(listed: seq<Production>, prods: seq<Production>, lines: seq<string>)
    requires GrammarLinesOk(lines) && |listed| == ProductionCount(lines)
    requires forall j :: 0 <= j < |listed| ==>
      listed[j].left == ParseProduction(lines[5 + j]).value.0 && listed[j].right == ParseProduction(lines[5 + j]).value.1
    requires |prods| == |listed| + 1
    requires prods[0] == Production(AugmentedStart, [StartSymbol(lines)], 0)
    requires forall q :: 1 <= q < |prods| ==> prods[q] == ([prods[0]] + listed)[q].(id := q)
    ensures IsAugmentation(prods, lines)
  {
    forall j | 1 <= j <= |listed|
      ensures prods[j] == Production(ParseProduction(lines[4 + j]).value.0, ParseProduction(lines[4 + j]).value.1, j)
    {
      assert ([prods[0]] + listed)[j] == listed[j - 1];
    }
  }

  /** The line format `LEFT -> R1 ... Rn`, written `LEFT ->` for an empty right side. */
  function ProductionLine(left: Symbol, right: seq<Symbol>): string {
    if right == [] then left + " ->" else left + (" -> " + JoinSpaced(right))
  }

  lemma ArrowErased()
    ensures EraseArrows(" ->") == "  " && EraseArrows(" -> ") == "   "
  {
    assert " ->"[1..] == "->" && "->"[2..] == "";
    assert " -> "[1..] == "-> " && "-> "[2..] == " " && " "[1..] == "";
    assert ReplaceAsciiArrow(" ->") == "  ";
    assert ReplaceAsciiArrow(" -> ") == "   ";
    assert "  "[1..] == " " && "   "[1..] == "  ";
  }

  lemma SplitLeadingSpaces(s: string)
    ensures Split("  " + s) == Split(s) && Split("   " + s) == Split(s)
  {
    assert ("   " + s)[1..] == "  " + s;
    assert ("  " + s)[1..] == " " + s;
    assert (" " + s)[1..] == s;
  }

  /** A production line reads back as its left side and its right side; `A ->` gives an empty right side. */
  lemma ProductionLineRoundTrip(left: Symbol, right: seq<Symbol>)
    requires IsWord(left) && ArrowFree(left)
    requires forall i :: 0 <= i < |right| ==> IsWord(right[i]) && ArrowFree(right[i])
    ensures ParseProduction(ProductionLine(left, right)) == Some((left, right))
  {
    if right == [] {
      EmptyProductionLineRoundTrip(left);
    } else {
      FullProductionLineRoundTrip(left, right);
    }
  }

  lemma EmptyProductionLineRoundTrip(left: Symbol)
    requires IsWord(left) && ArrowFree(left)
    ensures Split(EraseArrows(left + " ->")) == [left]
  {
    EraseArrowsArrowFree(left);
    EraseArrowsAppend(left, " ->");
    ArrowErased();
    SplitWordThen(left, "  ");
    SplitLeadingSpaces("");
  }

  lemma FullProductionLineRoundTrip(left: Symbol, right: seq<Symbol>)
    requires IsWord(left) && ArrowFree(left) && right != []
    requires forall i :: 0 <= i < |right| ==> IsWord(right[i]) && ArrowFree(right[i])
    ensures Split(EraseArrows(left + (" -> " + JoinSpaced(right)))) == [left] + right
  {
    ErasedProductionLine(left, right);
    SplitErasedLine(left, right);
  }

  lemma ErasedProductionLine(left: Symbol, right: seq<Symbol>)
    requires ArrowFree(left)
    requires forall i :: 0 <= i < |right| ==> IsWord(right[i]) && ArrowFree(right[i])
    ensures EraseArrows(left + (" -> " + JoinSpaced(right))) == left + ("   " + JoinSpaced(right))
  {
    var joined := JoinSpaced(right);
    EraseArrowsAppend(left, " -> " + joined);
    EraseArrowsArrowFree(left);
    EraseArrowsAppend(" -> ", joined);
    ArrowErased();
    EraseArrowsJoinSpaced(right);
  }

  lemma SplitErasedLine(left: Symbol, right: seq<Symbol>)
    requires IsWord(left)
    requires forall i :: 0 <= i < |right| ==> IsWord(right[i])
    ensures Split(left + ("   " + JoinSpaced(right))) == [left] + right
  {
    var joined := JoinSpaced(right);
    SplitWordThen(left, "   " + joined);
    SplitLeadingSpaces(joined);
    SplitJoinSpaced(right);
  }

  /**
   * The renumbering pass after the augmentation is prepended: from index 1 on,
   * every production gets its index as id; production 0 already has id 0 and
   * nothing else changes.
   */
  method Renumber(prods: seq<Production>) returns (out: seq<Production>)
    requires |prods| > 0 && prods[0].id == 0
    ensures |out| == |prods| && IdsAreIndices(out)
    ensures forall q :: 0 <= q < |out| ==> out[q] == prods[q].(id := q)
  {
    out := prods;
    for j := 1 to |out|
      invariant |out| == |prods|
      invariant forall q :: 0 <= q < j ==> out[q] == prods[q].(id := q)
      invariant forall q :: j <= q < |out| ==> out[q] == prods[q]
    {
      out := out[j := out[j].(id := j)];
    }
  }

  /**
   * The production loop both readers share: `count` lines from line 5 on, each
   * parsed into a production numbered `firstId` upwards. `None` when a line is
   * missing or holds only arrows.
   */
  method ReadProductionLines(lines: seq<string>, count: nat, firstId: int) returns (r: Option<seq<Production>>)
    requires |lines| >= 5
    ensures r.Some? <==> 5 + count <= |lines| && forall k :: 5 <= k < 5 + count ==> ParseProduction(lines[k]).Some?
    ensures r.Some? ==> |r.value| == count
    ensures r.Some? ==> forall j :: 0 <= j < count ==>
      r.value[j] == Production(ParseProduction(lines[5 + j]).value.0, ParseProduction(lines[5 + j]).value.1, j + firstId)
  {
    var i := 5;
    var prods: seq<Production> := [];
    for k := 0 to count
      invariant i == 5 + k && |prods| == k && i <= |lines|
      invariant forall l :: 5 <= l < i ==> ParseProduction(lines[l]).Some?
      invariant forall j :: 0 <= j < k ==>
          prods[j] == Production(ParseProduction(lines[5 + j]).value.0, ParseProduction(lines[5 + j]).value.1, j + firstId)
    {
      if i >= |lines| { return None; }
      var parsed := ParseProduction(lines[i]);
      if parsed.None? { return None; }
      prods := prods + [Production(parsed.value.0, parsed.value.1, k + firstId)];
      i := i + 1;
    }
    r := Some(prods);
  }

  /** exp7's `read_grammar`: the augmented productions (renumbered in place) with the two symbol sets. */
  method ReadGrammar(lines: seq<string>) returns (r: Option<Grammar>)
    ensures r.Some? <==> GrammarLinesOk(lines)
    ensures r.Some? ==> IsAugmentation(r.value.prods, lines) && WellFormed(r.value)
    ensures r.Some? ==> r.value.nonTerms == (set w | w in Split(lines[1]))
    ensures r.Some? ==> r.value.terms == (set w | w in Split(lines[3]))
  {
    if |lines| < 1 || ParseInt(lines[0]).None? { return None; }
    if |lines| < 2 { return None; }
    var nonTerms := set w | w in Split(lines[1]);
    if |lines| < 3 || ParseInt(lines[2]).None? { return None; }
    if |lines| < 4 { return None; }
    var terms := set w | w in Split(lines[3]);
    if |lines| < 5 || CountOf(lines[4]).None? { return None; }
    var prodCnt := CountOf(lines[4]).value;
    var listed := ReadProductionLines(lines, prodCnt, 0);
    if listed.None? || 5 + prodCnt >= |lines| { return None; }
    assert GrammarLinesOk(lines);
    var start := Strip(lines[5 + prodCnt]);
    var prods := Renumber([Production(AugmentedStart, [start], 0)] + listed.value);
    AugmentationOfListed(listed.value, prods, lines);
    AugmentationWellFormed(prods, lines);
    r := Some(Grammar(prods, nonTerms, terms));
  }

  /** exp9's `read_grammar`: the same augmented productions, numbered as they are read, and the start symbol. */
  method ReadProductions(lines: seq<string>) returns (r: Option<(seq<Production>, Symbol)>)
    ensures r.Some? <==> GrammarLinesOk(lines)
    ensures r.Some? ==> IsAugmentation(r.value.0, lines) && r.value.1 == StartSymbol(lines)
  {
    if |lines| < 1 || ParseInt(lines[0]).None? { return None; }
    if |lines| < 2 { return None; }
    if |lines| < 3 || ParseInt(lines[2]).None? { return None; }
    if |lines| < 4 { return None; }
    if |lines| < 5 || CountOf(lines[4]).None? { return None; }
    var prodCnt := CountOf(lines[4]).value;
    var listed := ReadProductionLines(lines, prodCnt, 1);
    if listed.None? || 5 + prodCnt >= |lines| { return None; }
    assert GrammarLinesOk(lines);
    var start := Strip(lines[5 + prodCnt]);
    var prods := [Production(AugmentedStart, [start], 0)] + listed.value;
    forall q | 1 <= q < |prods| ensures prods[q] == ([prods[0]] + listed.value)[q].(id := q) {
      assert prods[q] == listed.value[q - 1];
    }
    AugmentationOfListed(listed.value, prods, lines);
    r := Some((prods, start));
  }

}
