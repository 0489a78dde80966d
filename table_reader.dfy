/**
 * The driver's `read_lrtable`, over the file's lines as already read
 * (stripped, blank lines dropped): an action count, that many
 * `state symbol action` rows, a goto count, that many `state symbol target`
 * rows. Each row is stored under its `(state, symbol)` key, a later row
 * overwriting an earlier one. A reader that would raise (`IndexError` on a
 * missing line or field, `ValueError` on a number that is not an integer)
 * returns `None`; words after the third on a row are ignored.
 */
module TableReader {
  import opened Wrappers
  import opened Text
  import opened Grammar
  import opened Rows

  /** `int(parts[0]), parts[1], parts[2]`. */
  function ParseActionRow(line: string): Option<Row<string>> {
    var parts := Split(line);
    if |parts| == 0 || ParseInt(parts[0]).None? || |parts| < 3 then None
    else Some(Row(ParseInt(parts[0]).value, parts[1], parts[2]))
  }

  /** `int(parts[0]), parts[1], int(parts[2])`. */
  function ParseGotoRow(line: string): Option<Row<int>> {
    var parts := Split(line);
    if |parts| == 0 || ParseInt(parts[0]).None? || |parts| < 3 || ParseInt(parts[2]).None? then None
    else Some(Row(ParseInt(parts[0]).value, parts[1], ParseInt(parts[2]).value))
  }

  /** Lines `first .. first + count - 1` exist and each parses. */
  predicate RowsParse<V>(lines: seq<string>, first: nat, count: nat, parse: string -> Option<Row<V>>) {
    first + count <= |lines| && forall k :: first <= k < first + count ==> parse(lines[k]).Some?
  }

  /** Those lines' rows, in file order. */
  function ParsedRows<V>(lines: seq<string>, first: nat, count: nat, parse: string -> Option<Row<V>>): (rows: seq<Row<V>>)
    requires RowsParse(lines, first, count, parse)
    ensures |rows| == count
    ensures forall j :: 0 <= j < count ==> rows[j] == parse(lines[first + j]).value
  {
    if count == 0 then []
    else ParsedRows(lines, first, count - 1, parse) + [parse(lines[first + count - 1]).value]
  }

  /** The action count line is there and every announced action row parses. */
  predicate ActionPartOk(lines: seq<string>) {
    |lines| >= 1 && CountOf(lines[0]).Some? && RowsParse(lines, 1, CountOf(lines[0]).value, ParseActionRow)
  }

  /** The lines a reader gets through without raising. */
  predicate TableLinesOk(lines: seq<string>) {
    ActionPartOk(lines)
    && var g := 1 + CountOf(lines[0]).value;
       g < |lines| && CountOf(lines[g]).Some? && RowsParse(lines, g + 1, CountOf(lines[g]).value, ParseGotoRow)
  }

  /** The action rows in file order. */
  function ActionRows(lines: seq<string>): seq<Row<string>>
    requires ActionPartOk(lines)
  {
    ParsedRows(lines, 1, CountOf(lines[0]).value, ParseActionRow)
  }

  /** The goto rows in file order. */
  function GotoRows(lines: seq<string>): seq<Row<int>>
    requires TableLinesOk(lines)
  {
    var g := 1 + CountOf(lines[0]).value;
    ParsedRows(lines, g + 1, CountOf(lines[g]).value, ParseGotoRow)
  }

  /** One step of a fill loop: the dictionary of one more row. */
  lemma ToMapSnoc<V>(rows: seq<Row<V>>, x: Row<V>)
    ensures ToMap(rows + [x]) == ToMap(rows)[KeyOf(x) := x.val]
  {
    assert (rows + [x])[..|rows|] == rows;
  }

  /**
   * A counted fill loop of `read_lrtable`: `count` lines from `first` on, each
   * parsed and stored under its `(state, symbol)` key.
   */
  method ReadRows<V>(lines: seq<string>, first: nat, count: nat, parse: string -> Option<Row<V>>)
    returns (r: Option<map<Key, V>>)
    requires first <= |lines|
    ensures r.Some? <==> RowsParse(lines, first, count, parse)
    ensures r.Some? ==> r.value == ToMap(ParsedRows(lines, first, count, parse))
  {
    var d: map<Key, V> := map[];
    var i := first;
    for k := 0 to count
      invariant i == first + k && RowsParse(lines, first, k, parse)
      invariant d == ToMap(ParsedRows(lines, first, k, parse))
    {
      if i >= |lines| { return None; }
      var row := parse(lines[i]);
      if row.None? { return None; }
      ToMapSnoc(ParsedRows(lines, first, k, parse), row.value);
      d := d[(row.value.state, row.value.sym) := row.value.val];
      i := i + 1;
    }
    r := Some(d);
  }

  /** The action count and the action rows. */
  method ReadActionPart(lines: seq<string>) returns (r: Option<map<Key, string>>)
    ensures r.Some? <==> ActionPartOk(lines)
    ensures r.Some? ==> r.value == ToMap(ActionRows(lines))
  {
    if |lines| < 1 || CountOf(lines[0]).None? { return None; }
    r := ReadRows(lines, 1, CountOf(lines[0]).value, ParseActionRow);
  }

  /** The goto count after the action rows, and the goto rows. */
  method ReadGotoPart(lines: seq<string>) returns (r: Option<map<Key, int>>)
    requires ActionPartOk(lines)
    ensures r.Some? <==> TableLinesOk(lines)
    ensures r.Some? ==> r.value == ToMap(GotoRows(lines))
  {
    var g := 1 + CountOf(lines[0]).value;
    if g >= |lines| || CountOf(lines[g]).None? { return None; }
    r := ReadRows(lines, g + 1, CountOf(lines[g]).value, ParseGotoRow);
  }

  /** The driver's `read_lrtable`: both dictionaries, later rows overwriting earlier ones. */
  method ReadLrTable(lines: seq<string>) returns (r: Option<(map<Key, string>, map<Key, int>)>)
    ensures r.Some? <==> TableLinesOk(lines)
    ensures r.Some? ==> r.value.0 == ToMap(ActionRows(lines)) && r.value.1 == ToMap(GotoRows(lines))
  {
    var action := ReadActionPart(lines);
    if action.None? { return None; }
    var goto := ReadGotoPart(lines);
    if goto.None? { return None; }
    r := Some((action.value, goto.value));
  }

  /** A row as the generator writes it (`f"  {sid}   {sym}  {act}"`), surrounding whitespace stripped. */
  function ActionLine(r: Row<string>): string
    requires r.state >= 0
  {
    NatToString(r.state) + ("   " + (r.sym + ("  " + r.val)))
  }

  /** A goto row as the generator writes it (`f"  {sid}   {sym}   {tgt}"`), stripped. */
  function GotoLine(r: Row<int>): string
    requires r.state >= 0 && r.val >= 0
  {
    NatToString(r.state) + ("   " + (r.sym + ("   " + NatToString(r.val))))
  }

  /** Rows the generator can write and the reader can take back apart. */
  predicate Writable<V>(r: Row<V>) {
    r.state >= 0 && IsWord(r.sym)
  }

  lemma SplitSpaced(a: string, gap: string, rest: string)
    requires IsWord(a) && gap != [] && IsBlank(gap)
    ensures Split(a + (gap + rest)) == [a] + Split(rest)
  {
    SplitWordThen(a, gap + rest);
    SplitBlankPrefix(gap, rest);
  }

  lemma {:induction false} SplitBlankPrefix(gap: string, rest: string)
    requires IsBlank(gap)
    ensures Split(gap + rest) == Split(rest)
    decreases |gap|
  {
    if gap != [] {
      assert gap + rest == [gap[0]] + (gap[1..] + rest);
      SplitLeadingSpace(gap[0], gap[1..] + rest);
      SplitBlankPrefix(gap[1..], rest);
    } else {
      assert gap + rest == rest;
    }
  }

  lemma ThreeWords(a: string, gap1: string, b: string, gap2: string, c: string)
    requires IsWord(a) && IsWord(b) && IsWord(c)
    requires gap1 != [] && IsBlank(gap1) && gap2 != [] && IsBlank(gap2)
    ensures Split(a + (gap1 + (b + (gap2 + c)))) == [a, b, c]
  {
    SplitSpaced(a, gap1, b + (gap2 + c));
    SplitSpaced(b, gap2, c);
    SplitSpaced(c, " ", "");
    assert c + (" " + "") == c + " ";
    SplitWordThen(c, "");
    assert c + "" == c;
  }

  /** A written action row reads back as itself, provided its action is one word. */
  lemma ActionLineRoundTrip(r: Row<string>)
    requires Writable(r) && IsWord(r.val)
    ensures ParseActionRow(ActionLine(r)) == Some(r)
  {
    NatToStringIsWord(r.state);
    ThreeWords(NatToString(r.state), "   ", r.sym, "  ", r.val);
    ParseNatToString(r.state);
  }

  /** A written goto row reads back as itself. */
  lemma GotoLineRoundTrip(r: Row<int>)
    requires Writable(r) && r.val >= 0
    ensures ParseGotoRow(GotoLine(r)) == Some(r)
  {
    NatToStringIsWord(r.state);
    NatToStringIsWord(r.val);
    ThreeWords(NatToString(r.state), "   ", r.sym, "   ", NatToString(r.val));
    ParseNatToString(r.state);
    ParseNatToString(r.val);
  }

  /** The lines of the `.lrtbl` file the generator writes for these rows, each stripped. */
  function TableText(action: seq<Row<string>>, goto: seq<Row<int>>): seq<string>
    requires forall i :: 0 <= i < |action| ==> Writable(action[i])
    requires forall i :: 0 <= i < |goto| ==> Writable(goto[i]) && goto[i].val >= 0
  {
    [NatToString(|action|)]
    + seq(|action|, j requires 0 <= j < |action| && Writable(action[j]) => ActionLine(action[j]))
    + [NatToString(|goto|)]
    + seq(|goto|, j requires 0 <= j < |goto| && Writable(goto[j]) && goto[j].val >= 0 => GotoLine(goto[j]))
  }

  /** A count line the generator writes announces exactly that many rows. */
  lemma CountOfNatToString(n: nat)
    ensures CountOf(NatToString(n)) == Some(n)
  {
    ParseNatToString(n);
  }

  /**
   * Reading back a written table gives the rows that were written, so
   * `read_lrtable` ends with the last-write-wins dictionaries of the
   * generator's two row lists.
   */
  lemma WrittenTableReadsBack(action: seq<Row<string>>, goto: seq<Row<int>>)
    requires forall i :: 0 <= i < |action| ==> Writable(action[i]) && IsWord(action[i].val)
    requires forall i :: 0 <= i < |goto| ==> Writable(goto[i]) && goto[i].val >= 0
    ensures TableLinesOk(TableText(action, goto))
    ensures ActionRows(TableText(action, goto)) == action
    ensures GotoRows(TableText(action, goto)) == goto
  {
    WrittenActionsReadBack(action, goto);
    WrittenGotosReadBack(action, goto);
  }

  lemma WrittenActionsReadBack(action: seq<Row<string>>, goto: seq<Row<int>>)
    requires forall i :: 0 <= i < |action| ==> Writable(action[i]) && IsWord(action[i].val)
    requires forall i :: 0 <= i < |goto| ==> Writable(goto[i]) && goto[i].val >= 0
    ensures ActionPartOk(TableText(action, goto)) && ActionRows(TableText(action, goto)) == action
  {
    var t := TableText(action, goto);
    CountOfNatToString(|action|);
    assert t[0] == NatToString(|action|);
    forall j | 0 <= j < |action| ensures ParseActionRow(t[1 + j]) == Some(action[j]) {
      assert t[1 + j] == ActionLine(action[j]);
      ActionLineRoundTrip(action[j]);
    }
    assert ActionPartOk(t);
    assert ActionRows(t) == action;
  }

  lemma WrittenGotosReadBack(action: seq<Row<string>>, goto: seq<Row<int>>)
    requires forall i :: 0 <= i < |action| ==> Writable(action[i]) && IsWord(action[i].val)
    requires forall i :: 0 <= i < |goto| ==> Writable(goto[i]) && goto[i].val >= 0
    requires ActionPartOk(TableText(action, goto)) && CountOf(TableText(action, goto)[0]) == Some(|action|)
    ensures TableLinesOk(TableText(action, goto)) && GotoRows(TableText(action, goto)) == goto
  {
    var t := TableText(action, goto);
    var g := 1 + |action|;
    CountOfNatToString(|goto|);
    assert t[g] == NatToString(|goto|);
    forall j | 0 <= j < |goto| ensures ParseGotoRow(t[g + 1 + j]) == Some(goto[j]) {
      assert t[g + 1 + j] == GotoLine(goto[j]);
      GotoLineRoundTrip(goto[j]);
    }
    assert TableLinesOk(t);
    assert GotoRows(t) == goto;
  }

}
