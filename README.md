# LR(0) parser generator and table-driven driver, in Dafny

This project models two cooperating programs of a classic LR(0) toolchain.

- **The generator (`exp7/exp7.py`)** reads a grammar and augments it with production 0, `S' -> start`. It computes `closure` and `goto` over sets of LR(0) items. It builds the canonical collection of item sets breadth-first, deduplicating states by their item sets. It decides whether the grammar is LR(0) (`is_lr0`) and compiles the action and goto rows of the parse table, sorted by `(state, symbol)`.
- **The driver (`exp9/exp9.py`)** reads the same grammar and the table, filling an action dictionary and a goto dictionary in which a later row overwrites an earlier row with the same key. It runs the shift/reduce stack machine `analyze_one_string` on a sentence.

The model follows the source's imperative shape. The loops become Dafny methods with loop invariants: the closure fixed point, the BFS over the state queue, the per-state loops of `is_lr0` and of the row compilation, the counted row loops of `read_lrtable`, and the driver's stack loop. Each method is proved against a specification function or predicate. The properties are proved as lemmas about those specifications:

- closure is the least closed superset, and it is idempotent;
- `goto` is empty exactly when no item has the symbol after its dot;
- the constructed collection is canonical and does not depend on set iteration order;
- `is_lr0` is true exactly when no state has a conflict;
- the compiled rows are exactly the automaton's rows, sorted;
- `read_lrtable` is the last-write-wins dictionary of the rows it reads;
- the driver takes single steps as described below.

A last module connects the two programs. For a conflict-free canonical collection, rows that share a key never disagree. The dictionaries the driver fills, directly from the rows or by reading back the written text, therefore hold exactly the automaton's actions. Each turn of the driver then shifts, reduces, accepts or rejects as the automaton prescribes.

Modelling conventions:

- Items are a datatype `Item(prod, dot)`. Equality of datatype values is the value equality that `Item.__eq__`/`__hash__` give (exp7/exp7.py:20-24).
- A state is a value `State(items, transitions, id)`. The generator's in-place writes to `cur.transitions` become updates of a sequence of states.
- Where Python iterates a set or dictionary (items, symbols, terminals, transitions), the model picks an arbitrary element with `:|`. Every property therefore holds for every iteration order. `CanonicalCollectionsAgree` shows that the collection of item sets is the same whatever order is taken.
- The readers work on the file's lines as already read: stripped, with blank lines dropped. Where Python raises (`IndexError`, `ValueError`), a reader returns `None`. In the driver, a raise is its own outcome, `Raised`, distinct from `return False` (`Rejected`).
- Python's `int()` is `Text.ParseInt`: an optional sign and decimal digits. `str(n)` is `Text.NatToString`. `str.split`/`strip` use Python's whitespace set. The `replace` of both arrow spellings is `Text.EraseArrows`. String `<` is `Text.StrLt`. `list.sort` is a stable insertion sort.
- The generator's `if not next_set: continue` (exp7/exp7.py:141-142) can never be taken. `goto` over a symbol that follows a dot is never empty (`ItemSets.GotoEmptyIff`), so the model has no such branch.

**The expression grammar is not LR(0) for this code.** For the expression grammar `E -> E + T | T`, `T -> T * F | F`, `F -> ( E ) | id`, the code's `is_lr0` (exp7/exp7.py:163-176) answers false. The state holding `E -> T·` and `T -> T·* F` has a complete item together with a transition on the terminal `*`. Likewise, the state holding `S' -> E·` and `E -> E·+ T` counts the augmentation item as a complete item. The model follows the code: `Conflicts.IsLr0` is true exactly when no state has a reduce-reduce or a shift-reduce conflict in the code's sense.

## Model

| member | source | states |
|---|---|---|
| Text.ParseNatToString | exp9/exp9.py:91 | `int()` of the digits `str(n)` writes gives back `n`, so the driver reads the numbers of `s<N>`/`r<N>` entries and table lines as written |
| Text.NatToStringInjective | exp7/exp7.py:225 | distinct state or production numbers give distinct action strings |
| Text.StrLtTransitive | exp7/exp7.py:248 | string `<` is transitive, as the sort key needs |
| Text.StrLtTotal | exp7/exp7.py:248 | any two distinct strings are ordered one way or the other |
| Text.SplitBlank | exp9/exp9.py:58 | `split()` returns no words exactly when the text is all whitespace |
| Text.StripEmptyIsBlank | exp9/exp9.py:58 | a sentence that strips to nothing is all whitespace |
| GrammarReader.ReadProductionLines | exp9/exp9.py:21-28 | reads exactly `count` production lines; line `5 + j` gives production `j` with its left side, its right side and id `j + firstId`; `None` exactly when a line is missing or holds only arrows |
| GrammarReader.Renumber | exp7/exp7.py:71-73 | given the prepended production 0 with id 0, after the pass from index 1 on every id is its index and nothing else changed |
| GrammarReader.ReadGrammar | exp7/exp7.py:47-75 | succeeds exactly when the lines are well formed; the productions are the augmentation (production 0 `S' -> [start]`, listed production j at index j with id j), the grammar is well formed, and the symbol sets are the words of lines 1 and 3 |
| GrammarReader.ReadProductions | exp9/exp9.py:14-32 | succeeds on exactly the same lines as the generator's reader and returns the same augmentation and the start symbol |
| GrammarReader.AugmentationUnique | exp9/exp9.py:22-31 | the augmentation is unique, so the generator and the driver build the same production list from the same lines |
| GrammarReader.AugmentationWellFormed | exp7/exp7.py:71-73 | after augmentation production 0 is `S' -> [start]` and every id equals its index |
| GrammarReader.AugmentationOfListed | exp7/exp7.py:71-73 | inserting `S' -> start` in front of the listed productions and renumbering yields the augmentation |
| GrammarReader.ProductionLineRoundTrip | exp7/exp7.py:61-64 | a line `A -> X1 ... Xn` reads back as left side `A` and right side `X1 ... Xn`; a line `A ->` gives an empty right side |
| ItemSets.ClosureOf | exp7/exp7.py:81-98 | the closure contains its input and adds only dot-0 items |
| ItemSets.ClosureClosed | exp7/exp7.py:83-99 | the closure is closed: every item with a declared non-terminal B after its dot has every production of B at dot 0 in the set |
| ItemSets.ClosureAddsPredicted | exp7/exp7.py:90-97 | every added item `(q, 0)` is predicted: production q's left side is a declared non-terminal right after the dot of some item |
| ItemSets.ClosureLeast | exp7/exp7.py:83-99 | the closure is contained in every closed superset of the input |
| ItemSets.ClosureOfClosed | exp7/exp7.py:83-99 | a closed set is its own closure |
| ItemSets.ClosureIdempotent | exp7/exp7.py:79-99 | `closure(closure(I)) == closure(I)` |
| ItemSets.ClosureMonotone | exp7/exp7.py:79-99 | a larger input has a larger closure |
| ItemSets.ClosureValid | exp7/exp7.py:93-95 | the closure of valid items is valid (dots within `0..len(right)`) |
| ItemSets.ClosureEmpty | exp7/exp7.py:79-99 | the closure of the empty set is empty |
| ItemSets.AddPredictions | exp7/exp7.py:93-98 | the production loop for one item adds every production of B at dot 0 and only dot-0 items; `changed` is set exactly when something new was added |
| ItemSets.ClosurePass | exp7/exp7.py:84-98 | one pass over a snapshot adds every item predicted by the snapshot, stays within the closure, and reports a change exactly when the set grew |
| ItemSets.Closure | exp7/exp7.py:79-99 | the `while changed` loop returns exactly the closure |
| ItemSets.AdvanceItems | exp7/exp7.py:104-108 | the dot-moving loop returns exactly the items with X after the dot, advanced by one |
| ItemSets.Goto | exp7/exp7.py:102-109 | `goto(I, X)` returns the closure of the advanced items |
| ItemSets.AdvanceValid | exp7/exp7.py:107-108 | advanced dots stay within `0..len(right)` |
| ItemSets.GotoValid | exp7/exp7.py:102-109 | every item of `goto(I, X)` is valid |
| ItemSets.GotoEmptyIff | exp7/exp7.py:104-109 | `goto(I, X)` is empty exactly when no item of I has X right after its dot |
| ItemSets.GotoKernel | exp7/exp7.py:104-109 | the kernel (items with dot > 0) of `goto(I, X)` is exactly the advanced items |
| Automaton.CollectSymbols | exp7/exp7.py:132-136 | the collected symbols are exactly those following a dot in the state's items |
| Automaton.RegisterGoto | exp7/exp7.py:140-155 | the goto set is found in the dictionary or appended as a fresh state with the next id and enqueued; `cur.transitions[X]` then leads to a state holding the goto set, and the dictionary stays a bijection between item sets and ids |
| Automaton.VisitSymbol | exp7/exp7.py:139-155 | one visit keeps the expansion invariant, with X done |
| Automaton.ExpandState | exp7/exp7.py:131-155 | after the symbol loop the current state's transition keys are exactly its next symbols; each leads to its goto set; only fresh, unexpanded, enqueued states were appended |
| Automaton.ExpandingStep | exp7/exp7.py:144-155 | recording one more transition keeps every recorded transition leading to its goto set and every appended state reachable from the current state |
| Automaton.ExpandingDone | exp7/exp7.py:139-155 | once every symbol is visited, the current state is fully expanded |
| Automaton.RegistryBound | exp7/exp7.py:144-151 | because states are deduplicated by item set, there are no more states than subsets of the finite item universe, so the BFS ends |
| Automaton.BfsStep | exp7/exp7.py:128-155 | expanding the head of the queue advances the BFS invariant: the first `done + 1` states are expanded and every later state was discovered from an earlier one |
| Automaton.BfsComplete | exp7/exp7.py:128-157 | with the queue empty, the states are the canonical collection |
| Automaton.BuildStates | exp7/exp7.py:112-157 | the result is canonical: state 0 holds `closure({(0,0)})`, ids are indices, no two states share an item set, every transition key set is the set of next symbols, every target is a valid index holding `goto(items, X)`, and every later state is reachable |
| Automaton.CanonicalContains | exp7/exp7.py:112-157 | every item set of one canonical collection is the item set of some state of any other |
| Automaton.DistinctItemSetsCard | exp7/exp7.py:144-151 | distinct item sets make the number of states equal to the number of item sets |
| Automaton.CanonicalCollectionsAgree | exp7/exp7.py:112-157 | all canonical collections have the same item sets and the same size, whatever order the sets are iterated in |
| Conflicts.ScanReduceItems | exp7/exp7.py:164-169 | the item scan stops early exactly on complete items of two different productions; otherwise it finds a complete item exactly when there is one |
| Conflicts.HasTerminalTransition | exp7/exp7.py:171-175 | finds a transition on a terminal exactly when there is one |
| Conflicts.IsLr0 | exp7/exp7.py:161-176 | returns true exactly when no state has a reduce-reduce conflict (complete items of two productions) or a shift-reduce conflict (a complete item, the augmentation item included, and a transition on a terminal) |
| Conflicts.CanonicalIndexesProds | exp7/exp7.py:166 | in a canonical collection every item names an existing production, so `prods[item.prod_id]` never raises |
| Table.AppendShiftRows | exp7/exp7.py:222-225 | appends, after the earlier rows, an `s<tgt>` row for each transition on a terminal and no other row |
| Table.AcceptAndReduceIds | exp7/exp7.py:228-234 | appends, after the earlier rows, the `acc` row on `#` exactly when `S' -> S·` is in the state and no other row, and collects exactly the other complete productions |
| Table.AppendReduceOnTerms | exp7/exp7.py:238-239 | appends, after the earlier rows, `r<p>` on exactly the terminals |
| Table.AppendReduceRows | exp7/exp7.py:237-240 | appends, after the earlier rows, `r<p>` on every terminal and on `#` for exactly the collected productions |
| Table.AppendGotoRows | exp7/exp7.py:243-245 | adds a goto row for each transition on a non-terminal and no other row |
| Table.ReduceRowsOfIds | exp7/exp7.py:228-240 | the reduce rows built from the collected ids are exactly those of the complete productions other than 0 |
| Table.AppendStateRows | exp7/exp7.py:221-245 | one state contributes exactly its shift, accept, reduce and goto rows; its action rows follow the earlier rows, all with its id, shift rows first, then `acc`, then reduce rows |
| Table.CompileRows | exp7/exp7.py:218-249 | both lists are sorted by `(state, symbol)` and hold exactly the shift, accept and reduce rows (action) and the goto rows of every state; when ids are indices, the action rows of each key come shift first, then `acc`, then reduce |
| Table.KeyRankExtend | exp7/exp7.py:220-240 | appending a later state's rows, themselves shift, `acc`, reduce in turn, keeps the rows of every key in that order |
| Table.FilterRankOrdered | exp7/exp7.py:220-240 | when rows with equal keys are in that order wherever they stand, the rows of each key taken out are in that order |
| Table.MapKeepsHighestRank | exp9/exp9.py:40-45 | with each key's rows in that order, the dictionary holds for each key the value of one of its rows, and reduce beats `acc` beats shift |
| Rows.KeyLtTransitive | exp7/exp7.py:248 | the `(state, symbol)` key order is transitive |
| Rows.SortRowsSorted | exp7/exp7.py:248-249 | sorting yields a sorted permutation of the rows |
| Rows.SortRowsStable | exp7/exp7.py:248-249 | the sort is stable: rows with equal keys keep their order |
| Rows.ToMapLast | exp9/exp9.py:40-45 | a key is in the dictionary exactly when some row has it, and it holds the value of the last such row |
| Rows.SortKeepsMap | exp7/exp7.py:248-249 | sorting does not change the dictionary read from the rows |
| Rows.ToMapAgreeing | exp9/exp9.py:44 | when all rows with a key agree, the dictionary holds that value whatever the row order |
| TableReader.ParsedRows | exp9/exp9.py:41-45 | the parsed rows are the parses of exactly the `count` lines from `first` on |
| TableReader.ReadRows | exp9/exp9.py:41-45 | the counted row loop succeeds exactly when all `count` lines exist and parse, and fills the last-write-wins dictionary of those rows |
| TableReader.ReadActionPart | exp9/exp9.py:38-45 | reads the action count and exactly that many action rows |
| TableReader.ReadGotoPart | exp9/exp9.py:47-53 | reads the goto count after the action rows and exactly that many goto rows |
| TableReader.ReadLrTable | exp9/exp9.py:34-55 | succeeds exactly when the table lines are well formed; the two dictionaries are the last-write-wins dictionaries of the action rows and of the goto rows in file order |
| TableReader.ActionLineRoundTrip | exp9/exp9.py:42-43 | an action line as the generator writes it parses back to its row |
| TableReader.GotoLineRoundTrip | exp9/exp9.py:50-51 | a goto line as the generator writes it parses back to its row |
| TableReader.CountOfNatToString | exp9/exp9.py:39 | a written count line announces exactly that many rows |
| TableReader.WrittenTableReadsBack | exp9/exp9.py:34-55 | the text the generator writes for two row lists is well formed and reads back as those lists, in order |
| Driver.Tokens | exp9/exp9.py:58-59 | the tokens are the sentence's words followed by `#`; a blank sentence gives `["#"]` |
| Driver.PopBoth | exp9/exp9.py:104-106 | `n` guarded pops remove `min(n, len)` entries from each stack |
| Driver.ReduceTurn | exp9/exp9.py:99-117 | the reduce branch does what the step function's reduce does |
| Driver.TakeTurn | exp9/exp9.py:70-117 | one pass of the loop body is one turn of the step function |
| Driver.AnalyzeOneString | exp9/exp9.py:57-121 | within `fuel` turns, the outcome is that of the step function run from state stack `[0]`, an empty symbol stack and cursor 0 |
| Driver.RunMonotone | exp9/exp9.py:70 | more fuel does not change an outcome that was reached |
| Driver.MissingActionRejects | exp9/exp9.py:75-80 | no entry for (top state, token) returns False |
| Driver.AcceptEntryAccepts | exp9/exp9.py:84-88 | an `acc` entry returns True |
| Driver.ShiftEntryShifts | exp9/exp9.py:90-94 | `s<N>` pushes N and the token and advances the cursor by exactly one |
| Driver.ReduceEntryReduces | exp9/exp9.py:98-117 | `r<N>` pops `len(right)` entries from each stack (never from an empty one), pushes the left side and the goto target, and keeps the cursor; a missing goto entry returns False |
| Driver.StepKeepsBalance | exp9/exp9.py:92-117 | every turn that continues keeps the state stack exactly one longer than the symbol stack |
| Driver.RunKeepsBalance | exp9/exp9.py:61-117 | the balance holds on every configuration a run reaches from the initial one |
| Driver.ReduceWithinStack | exp9/exp9.py:104-117 | a reduce that pops no more than the symbol stack holds never raises and keeps the balance |
| Driver.UnknownEntryLoops | exp9/exp9.py:82-98 | an entry that is none of `acc`, `s...`, `r...` makes no progress, so the loop never ends |
| Pipeline.ClashIsConflict | exp7/exp7.py:221-240 | two action rows of one state on the same symbol with different values imply a conflict in `is_lr0`'s sense |
| Pipeline.ActionRowsAgree | exp7/exp7.py:221-240 | in a conflict-free collection, action rows with the same key carry the same value |
| Pipeline.GotoRowsAgree | exp7/exp7.py:243-245 | goto rows with the same key carry the same target |
| Pipeline.ActionMapOfRows | exp9/exp9.py:40-45 | the driver's action dictionary filled from the compiled rows has exactly the rows' keys and each row's value |
| Pipeline.GotoMapOfRows | exp9/exp9.py:48-53 | the goto dictionary filled from the compiled rows has exactly the rows' keys and each row's target |
| Pipeline.CompiledRowsWritable | exp7/exp7.py:253-258 | the compiled rows of a canonical collection can be written as lines that split back into three fields |
| Pipeline.DictionaryPrefersReduce | exp7/exp7.py:221-248 | in a conflicting table, wherever a state reduces on a symbol, the driver's dictionary holds a reduce action of that state for it, over any clashing `s<N>` or `acc` |
| Pipeline.WrittenTableIsAutomaton | exp9/exp9.py:34-55 | the written table reads back as dictionaries holding exactly the automaton's rows |
| Pipeline.DriverShifts | exp9/exp9.py:90-94 | on a terminal with a transition, the driver shifts to the transition's target |
| Pipeline.DriverReduces | exp9/exp9.py:98-117 | in a state that reduces by production p > 0, on any terminal or `#`, the driver reduces by p |
| Pipeline.DriverAccepts | exp9/exp9.py:84-88 | in a state holding `S' -> S·`, on `#`, the driver accepts |
| Pipeline.DriverRejects | exp9/exp9.py:75-80 | where the state has no shift, accept or reduce for the token, the driver rejects |
| Pipeline.DriverGoesTo | exp9/exp9.py:108-117 | after a reduce to A, the driver goes to the uncovered state's transition on A |

## Left out

- File I/O: opening and reading the grammar, table and input files; the `.lrtbl` file name; writing the file. The readers take the already-read lines (stripped, blank lines dropped). The writer is modelled as the list of lines it writes, each stripped of the two leading spaces, which the reader's `strip()` removes anyway.
- All console output: `print_item_sets`, `print_transitions`, the non-LR(0) warning and the driver's trace lines. They only format output.
- `main` in both programs: argument handling, default file names and the sentence loop.
- The symbol-count lines of the grammar file: they are parsed (a non-integer still makes the reader fail), and their values are unused, as in the source.
- Text.ParseInt: does not accept the surrounding whitespace, underscores or non-ASCII digits that Python's `int()` also accepts. Every string the model parses comes from `split()`, so whitespace cannot occur.
- Automaton.BuildStates: state numbering depends on Python's set iteration order, which depends on hashing. The model proves its properties for every order instead of one particular hash order.
- Driver.AnalyzeOneString: the source loop has no bound, so the model runs at most `fuel` turns and returns `OutOfFuel` after that. `RunMonotone` shows that extra fuel never changes a reached outcome.
- Table.CompileRows: the lists are stated as sets of rows, sortedness and the per-key order shift, `acc`, reduce. How many times a row repeats (for example a reduce row on `#` when `#` is also declared a terminal) is not stated. Two reduce rows with the same key (a reduce-reduce conflict) come in the order the state's items are iterated, which depends on hashing, so the model leaves open which of the two productions the dictionary keeps.
- Pipeline.WrittenTableIsAutomaton: only for a conflict-free canonical collection whose symbols are whitespace-free words. The grammar reader splits every production line into words, but takes the whole stripped start line as the start symbol (exp7/exp7.py:68), so the result holds provided the start line is a single word; a start line `E T` gives a goto row `0 E T 1` that the driver's reader cannot parse. A table with conflicts keeps the last row of each clashing key, which `Rows.ToMapLast` describes and `Pipeline.DictionaryPrefersReduce` resolves for shift-reduce and accept-reduce clashes.
- Exceptions are outcomes, not control flow: a reader returns `None`, and the driver returns `Raised`. The model does not distinguish which exception Python raises.
