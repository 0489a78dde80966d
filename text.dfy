/**
 * The parts of Python's string library that the generator and the driver rely
 * on, stated over `string` (a sequence of code points): `str.isspace`,
 * `str.split()` with no argument, `str.strip()`, the two `str.replace` calls
 * that erase production arrows, `int()` on decimal text, `str()` on a natural
 * number, and `<` on strings.
 */
module Text {
  import opened Wrappers

  /** Python's `str.isspace()` for a single character. */
  predicate IsSpace(c: char) {
    ('\t' <= c <= '\r') || ('\U{1c}' <= c <= ' ') || c == '\U{85}' || c == '\U{a0}'
    || c == '\U{1680}' || ('\U{2000}' <= c <= '\U{200a}') || c == '\U{2028}' || c == '\U{2029}'
    || c == '\U{202f}' || c == '\U{205f}' || c == '\U{3000}'
  }

  /** A non-empty run of non-whitespace characters: the pieces `split()` returns. */
  predicate IsWord(w: string) {
    w != [] && forall i :: 0 <= i < |w| ==> !IsSpace(w[i])
  }

  predicate IsBlank(s: string) {
    forall i :: 0 <= i < |s| ==> IsSpace(s[i])
  }

  /** The longest prefix of `s` that holds no whitespace. */
  function WordPrefix(s: string): (w: string)
    ensures |w| <= |s| && w == s[..|w|]
    ensures forall i :: 0 <= i < |w| ==> !IsSpace(w[i])
    ensures |w| < |s| ==> IsSpace(s[|w|])
  {
    if s == [] || IsSpace(s[0]) then [] else [s[0]] + WordPrefix(s[1..])
  }

  /** Python's `s.split()`: the maximal whitespace-free runs of `s`, left to right. */
  function Split(s: string): (words: seq<string>)
    ensures forall i :: 0 <= i < |words| ==> IsWord(words[i])
    decreases |s|
  {
    if s == [] then []
    else if IsSpace(s[0]) then Split(s[1..])
    else
      var w := WordPrefix(s);
      [w] + Split(s[|w|..])
  }

  /** Python's `" ".join(words)`. */
  function JoinSpaced(words: seq<string>): string {
    if words == [] then ""
    else if |words| == 1 then words[0]
    else words[0] + " " + JoinSpaced(words[1..])
  }

  lemma {:induction false} WordPrefixOfWord(w: string, rest: string)
    requires IsWord(w) && (rest == [] || IsSpace(rest[0]))
    ensures WordPrefix(w + rest) == w
    decreases |w|
  {
    if |w| > 1 {
      assert (w + rest)[1..] == w[1..] + rest;
      WordPrefixOfWord(w[1..], rest);
    } else {
      assert (w + rest)[1..] == rest;
    }
  }

  lemma SplitWordThen(w: string, rest: string)
    requires IsWord(w) && (rest == [] || IsSpace(rest[0]))
    ensures Split(w + rest) == [w] + Split(rest)
  {
    WordPrefixOfWord(w, rest);
    assert (w + rest)[|w|..] == rest;
  }

  /** `split()` undoes `" ".join` on whitespace-free, non-empty words. */
  lemma {:induction false} SplitJoinSpaced(words: seq<string>)
    requires forall i :: 0 <= i < |words| ==> IsWord(words[i])
    ensures Split(JoinSpaced(words)) == words
  {
    if words == [] {
    } else if |words| == 1 {
      SplitWordThen(words[0], "");
      assert words[0] + "" == words[0];
    } else {
      var rest := JoinSpaced(words[1..]);
      assert JoinSpaced(words) == words[0] + (" " + rest);
      SplitWordThen(words[0], " " + rest);
      assert (" " + rest)[1..] == rest;
      SplitJoinSpaced(words[1..]);
    }
  }

  /** `split()` finds no word exactly in the all-whitespace strings. */
  lemma {:induction false} SplitBlank(s: string)
    ensures Split(s) == [] <==> IsBlank(s)
    decreases |s|
  {
    if s != [] && IsSpace(s[0]) {
      SplitBlank(s[1..]);
      assert IsBlank(s) <==> IsBlank(s[1..]) by {
        if IsBlank(s[1..]) {
          forall i | 0 <= i < |s| ensures IsSpace(s[i]) {
            if i > 0 { assert s[i] == s[1..][i - 1]; }
          }
        }
      }
    }
  }

  function StripLeft(s: string): (t: string)
    ensures t == [] || !IsSpace(t[0])
    ensures |t| <= |s| && t == s[|s| - |t|..]
  {
    if s != [] && IsSpace(s[0]) then StripLeft(s[1..]) else s
  }

  function StripRight(s: string): (t: string)
    ensures t == [] || !IsSpace(t[|t| - 1])
    ensures |t| <= |s| && t == s[..|t|]
    ensures s != [] && !IsSpace(s[0]) ==> t != [] && t[0] == s[0]
  {
    if s != [] && IsSpace(s[|s| - 1]) then StripRight(s[..|s| - 1]) else s
  }

  /** Python's `s.strip()`: no whitespace is left at either end. */
  function Strip(s: string): (t: string)
    ensures t == [] || (!IsSpace(t[0]) && !IsSpace(t[|t| - 1]))
    ensures |t| <= |s|
  {
    StripRight(StripLeft(s))
  }

  /** Only an all-whitespace string strips to nothing. */
  lemma StripEmptyIsBlank(s: string)
    ensures Strip(s) == [] ==> IsBlank(s)
  {
    if !IsBlank(s) {
      var i :| 0 <= i < |s| && !IsSpace(s[i]);
      NonSpaceSurvivesStripLeft(s, i);
    }
  }

  /** A character that is not whitespace stops `lstrip`, so something is left. */
  lemma {:induction false} NonSpaceSurvivesStripLeft(s: string, i: nat)
    requires i < |s| && !IsSpace(s[i])
    ensures StripLeft(s) != []
    decreases i
  {
    if IsSpace(s[0]) {
      assert s[1..][i - 1] == s[i];
      NonSpaceSurvivesStripLeft(s[1..], i - 1);
    }
  }

  /** Python's `s.replace("->", " ")`: every "->" met scanning left to right becomes one space. */
  function ReplaceAsciiArrow(s: string): string {
    if |s| >= 2 && s[0] == '-' && s[1] == '>' then " " + ReplaceAsciiArrow(s[2..])
    else if s == [] then []
    else [s[0]] + ReplaceAsciiArrow(s[1..])
  }

  /** Python's `s.replace("→", " ")`. */
  function ReplaceUnicodeArrow(s: string): string {
    if s == [] then []
    else [if s[0] == '\U{2192}' then ' ' else s[0]] + ReplaceUnicodeArrow(s[1..])
  }

  /** The arrow erasure applied to every production line before it is split. */
  function EraseArrows(s: string): string {
    ReplaceUnicodeArrow(ReplaceAsciiArrow(s))
  }

  /** Text that holds neither "->" nor "→", so that erasing arrows leaves it alone. */
  predicate ArrowFree(s: string) {
    (forall i :: 0 <= i < |s| ==> s[i] != '\U{2192}')
    && (forall i :: 0 <= i < |s| - 1 ==> !(s[i] == '-' && s[i + 1] == '>'))
  }

  lemma {:induction false} ReplaceAsciiArrowAppend(a: string, b: string)
    requires a == [] || b == [] || a[|a| - 1] != '-' || b[0] != '>'
    ensures ReplaceAsciiArrow(a + b) == ReplaceAsciiArrow(a) + ReplaceAsciiArrow(b)
    decreases |a|
  {
    if a == [] {
      assert a + b == b;
    } else if |a| >= 2 && a[0] == '-' && a[1] == '>' {
      assert (a + b)[2..] == a[2..] + b;
      ReplaceAsciiArrowAppend(a[2..], b);
    } else {
      assert (a + b)[1..] == a[1..] + b;
      ReplaceAsciiArrowAppend(a[1..], b);
    }
  }

  lemma {:induction false} ReplaceUnicodeArrowAppend(a: string, b: string)
    ensures ReplaceUnicodeArrow(a + b) == ReplaceUnicodeArrow(a) + ReplaceUnicodeArrow(b)
    decreases |a|
  {
    if a == [] {
      assert a + b == b;
    } else {
      assert (a + b)[1..] == a[1..] + b;
      ReplaceUnicodeArrowAppend(a[1..], b);
    }
  }

  lemma EraseArrowsAppend(a: string, b: string)
    requires a == [] || b == [] || a[|a| - 1] != '-' || b[0] != '>'
    ensures EraseArrows(a + b) == EraseArrows(a) + EraseArrows(b)
  {
    ReplaceAsciiArrowAppend(a, b);
    ReplaceUnicodeArrowAppend(ReplaceAsciiArrow(a), ReplaceAsciiArrow(b));
  }

  lemma {:induction false} EraseArrowsArrowFree(s: string)
    requires ArrowFree(s)
    ensures EraseArrows(s) == s
    decreases |s|
  {
    if s != [] {
      assert ArrowFree(s[1..]);
      EraseArrowsArrowFree(s[1..]);
      EraseArrowsAppend(s[..1], s[1..]);
      assert s[..1] + s[1..] == s;
    }
  }

  /** Erasing arrows from words joined by single spaces changes nothing when the words are arrow-free. */
  lemma {:induction false} EraseArrowsJoinSpaced(words: seq<string>)
    requires forall i :: 0 <= i < |words| ==> IsWord(words[i]) && ArrowFree(words[i])
    ensures EraseArrows(JoinSpaced(words)) == JoinSpaced(words)
  {
    if words == [] {
    } else if |words| == 1 {
      EraseArrowsArrowFree(words[0]);
    } else {
      var w, rest := words[0], JoinSpaced(words[1..]);
      assert JoinSpaced(words) == w + (" " + rest);
      calc {
        EraseArrows(w + (" " + rest));
        { EraseArrowsAppend(w, " " + rest); }
        EraseArrows(w) + EraseArrows(" " + rest);
        { EraseArrowsArrowFree(w); EraseArrowsAppend(" ", rest); }
        w + (EraseArrows(" ") + EraseArrows(rest));
        { EraseArrowsArrowFree(" "); EraseArrowsJoinSpaced(words[1..]); }
        w + (" " + rest);
      }
    }
  }

  predicate IsDigit(c: char) {
    '0' <= c <= '9'
  }

  predicate IsDigits(s: string) {
    s != [] && forall i :: 0 <= i < |s| ==> IsDigit(s[i])
  }

  /** The number that a string of decimal digits denotes (leading zeros allowed). */
  function DigitsValue(s: string): nat
    requires forall i :: 0 <= i < |s| ==> IsDigit(s[i])
  {
    if s == [] then 0
    else
      assert IsDigit(s[|s| - 1]);
      10 * DigitsValue(s[..|s| - 1]) + (s[|s| - 1] as int - '0' as int)
  }

  /**
   * Python's `int(s)` on text without surrounding whitespace or underscores: an
   * optional sign followed by at least one decimal digit. `None` is the
   * `ValueError` that any other text raises.
   */
  function ParseInt(s: string): Option<int> {
    if s != [] && (s[0] == '+' || s[0] == '-') then
      if IsDigits(s[1..]) then
        var magnitude: int := DigitsValue(s[1..]);
        Some(if s[0] == '-' then -magnitude else magnitude)
      else None
    else if IsDigits(s) then Some(DigitsValue(s))
    else None
  }

  /** `range(int(line))`: how many lines a count line announces; a negative count announces none. */
  function CountOf(line: string): Option<nat> {
    match ParseInt(line)
    case None => None
    case Some(n) => Some(if n < 0 then 0 else n)
  }

  function DigitChar(d: nat): (c: char)
    requires d < 10
    ensures IsDigit(c) && c as int - '0' as int == d
  {
    ('0' as int + d) as char
  }

  /** Leading whitespace does not change what `split()` returns. */
  lemma SplitLeadingSpace(c: char, s: string)
    requires IsSpace(c)
    ensures Split([c] + s) == Split(s)
  {
    assert ([c] + s)[1..] == s;
  }

  /** Python's `str(n)` (and `f"{n}"`) for a natural number: its decimal digits. */
  function NatToString(n: nat): (s: string)
    ensures IsDigits(s) && DigitsValue(s) == n
  {
    if n < 10 then [DigitChar(n)]
    else
      var prefix := NatToString(n / 10);
      var s := prefix + [DigitChar(n % 10)];
      assert s[..|s| - 1] == prefix;
      s
  }

  /** `int(str(n)) == n`: the text the generator writes for a number reads back as that number. */
  lemma ParseNatToString(n: nat)
    ensures ParseInt(NatToString(n)) == Some(n)
  {
    var s := NatToString(n);
    assert IsDigit(s[0]);
  }

  /** Different numbers are written differently. */
  lemma NatToStringInjective(m: nat, n: nat)
    requires NatToString(m) == NatToString(n)
    ensures m == n
  {
    ParseNatToString(m);
    ParseNatToString(n);
  }

  /** A number's text is a single word: `split()` keeps it whole. */
  lemma NatToStringIsWord(n: nat)
    ensures IsWord(NatToString(n)) && ArrowFree(NatToString(n))
  {
    var s := NatToString(n);
    forall i | 0 <= i < |s| ensures !IsSpace(s[i]) {
      assert IsDigit(s[i]);
    }
  }

  /** Python's `a < b` on strings: lexicographic by code point, a proper prefix first. */
  predicate StrLt(a: string, b: string)
    decreases |a|
  {
    b != [] && (a == [] || a[0] < b[0] || (a[0] == b[0] && StrLt(a[1..], b[1..])))
  }

  lemma {:induction false} StrLtIrreflexive(a: string)
    ensures !StrLt(a, a)
    decreases |a|
  {
    if a != [] { StrLtIrreflexive(a[1..]); }
  }

  lemma {:induction false} StrLtTransitive(a: string, b: string, c: string)
    requires StrLt(a, b) && StrLt(b, c)
    ensures StrLt(a, c)
    decreases |a|
  {
    if a != [] && a[0] == b[0] && b[0] == c[0] {
      StrLtTransitive(a[1..], b[1..], c[1..]);
    }
  }

  lemma {:induction false} StrLtTotal(a: string, b: string)
    ensures a == b || StrLt(a, b) || StrLt(b, a)
    decreases |a|
  {
    if a != [] && b != [] && a[0] == b[0] {
      StrLtTotal(a[1..], b[1..]);
      if a[1..] == b[1..] {
        assert a == [a[0]] + a[1..] && b == [b[0]] + b[1..];
      }
    }
  }

}
