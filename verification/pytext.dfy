/**
  The few Python string built-ins the subscription code relies on, stated
  exactly enough to reason about round trips: `str.isspace`, the strip
  `int()` applies, `str.split()` with no separator, `str.rstrip(c)`, `str(int)` and `int(str)`.
 */
module PyText {
  import opened Wrappers

  /** Python's `str.isspace` for a single character. */
  predicate IsSpace(c: char) {
    || ('\U{0009}' <= c <= '\U{000D}')
    || ('\U{001C}' <= c <= '\U{0020}')
    || c == '\U{0085}' || c == '\U{00A0}' || c == '\U{1680}'
    || ('\U{2000}' <= c <= '\U{200A}')
    || c == '\U{2028}' || c == '\U{2029}' || c == '\U{202F}'
    || c == '\U{205F}' || c == '\U{3000}'
  }

  predicate NoSpace(s: string) {
    forall i :: 0 <= i < |s| ==> !IsSpace(s[i])
  }

  /** A token `str.split()` can return: non-empty and free of whitespace. */
  predicate Word(s: string) {
    |s| > 0 && NoSpace(s)
  }

  /** `s.lstrip()`: drops leading whitespace and nothing else. */
  function LStrip(s: string): (r: string)
    ensures |r| <= |s| && r == s[|s| - |r|..]
    ensures forall i :: 0 <= i < |s| - |r| ==> IsSpace(s[i])
    ensures r == [] || !IsSpace(r[0])
  {
    if |s| > 0 && IsSpace(s[0]) then LStrip(s[1..]) else s
  }

  /**
    The whitespace `int()` strips around a literal: the six ASCII characters
    tab, line feed, vertical tab, form feed, carriage return and space, and
    every non-ASCII character `str.isspace` accepts. The ASCII separators
    U+001C to U+001F are `isspace` characters but are not stripped.
   */
  predicate IntSpace(c: char) {
    || c == '\t' || c == '\n' || c == '\U{000B}' || c == '\U{000C}' || c == '\r' || c == ' '
    || (c > '\U{007F}' && IsSpace(c))
  }

  /** The leading part of `int()`'s strip: drops leading `IntSpace` characters and nothing else. */
  function IntLStrip(s: string): (r: string)
    ensures |r| <= |s| && r == s[|s| - |r|..]
    ensures forall i :: 0 <= i < |s| - |r| ==> IntSpace(s[i])
    ensures r == [] || !IntSpace(r[0])
  {
    if |s| > 0 && IntSpace(s[0]) then IntLStrip(s[1..]) else s
  }

  /** The trailing part of `int()`'s strip: drops trailing `IntSpace` characters and nothing else. */
  function IntRStrip(s: string): (r: string)
    ensures |r| <= |s| && r == s[..|r|]
    ensures forall i :: |r| <= i < |s| ==> IntSpace(s[i])
    ensures r == [] || !IntSpace(r[|r| - 1])
  {
    if |s| > 0 && IntSpace(s[|s| - 1]) then IntRStrip(s[..|s| - 1]) else s
  }

  /** The text `int()` reads as a literal once the surrounding whitespace is gone. */
  function IntStrip(s: string): string {
    IntRStrip(IntLStrip(s))
  }

  /** `s.rstrip(c)` for a one-character argument. */
  function RStripChar(s: string, c: char): (r: string)
    ensures |r| <= |s| && r == s[..|r|]
    ensures forall i :: |r| <= i < |s| ==> s[i] == c
    ensures r == [] || r[|r| - 1] != c
  {
    if |s| > 0 && s[|s| - 1] == c then RStripChar(s[..|s| - 1], c) else s
  }

  /** The longest whitespace-free prefix of a string that starts with a non-space. */
  function WordPrefix(t: string): (w: string)
    requires |t| > 0 && !IsSpace(t[0])
    ensures 0 < |w| <= |t| && w == t[..|w|] && NoSpace(w)
    ensures |w| == |t| || IsSpace(t[|w|])
  {
    if |t| == 1 || IsSpace(t[1]) then t[..1] else t[..1] + WordPrefix(t[1..])
  }

  /** `s.split()`: the maximal runs of non-whitespace characters, in order. */
  function Split(s: string): (words: seq<string>)
    decreases |s|
  {
    var t := LStrip(s);
    if t == [] then []
    else
      var w := WordPrefix(t);
      var rest := Split(t[|w|..]);
      [w] + rest
  }

  predicate AllWords(ws: seq<string>) {
    forall i :: 0 <= i < |ws| ==> Word(ws[i])
  }

  lemma AllWordsCons(w: string, rest: seq<string>)
    requires Word(w) && AllWords(rest)
    ensures AllWords([w] + rest)
  {
    var ws := [w] + rest;
    forall i | 0 <= i < |ws|
      ensures Word(ws[i])
    {
      if i > 0 {
        assert ws[i] == rest[i - 1];
      }
    }
  }

  /** Every token of `s.split()` is a non-empty whitespace-free word. */
  lemma {:induction false} SplitGivesWords(s: string)
    ensures AllWords(Split(s))
    decreases |s|
  {
    var t := LStrip(s);
    if |t| > 0 {
      var w := WordPrefix(t);
      SplitGivesWords(t[|w|..]);
      assert Split(s) == [w] + Split(t[|w|..]);
      AllWordsCons(w, Split(t[|w|..]));
    }
  }

  /** The first token of `p + rest` is `p` when `p` is a word and `rest` is empty or starts with whitespace. */
  lemma FirstWordOf(p: string, rest: string)
    requires Word(p)
    requires rest == [] || IsSpace(rest[0])
    ensures |Split(p + rest)| > 0 && Split(p + rest)[0] == p
  {
    var t := p + rest;
    assert t[0] == p[0];
    assert LStrip(t) == t;
    var w := WordPrefix(t);
    assert t[..|p|] == p;
    assert |w| == |p|;
  }

  predicate IsDigit(c: char) {
    '0' <= c <= '9'
  }

  predicate AllDigits(s: string) {
    forall i :: 0 <= i < |s| ==> IsDigit(s[i])
  }

  function DigitValue(c: char): (d: nat)
    requires IsDigit(c)
    ensures d < 10
  {
    c as int - '0' as int
  }

  function DigitChar(d: nat): (c: char)
    requires d < 10
    ensures IsDigit(c) && DigitValue(c) == d
  {
    ('0' as int + d) as char
  }

  /** The value of a decimal digit string, most significant digit first. */
  function DigitsValue(s: string): nat
    requires AllDigits(s)
  {
    if s == [] then 0 else DigitsValue(s[..|s| - 1]) * 10 + DigitValue(s[|s| - 1])
  }

  /** `str(n)` for a non-negative integer: shortest decimal form, no leading zero. */
  function NatStr(n: nat): (r: string)
    ensures |r| > 0 && AllDigits(r) && DigitsValue(r) == n
    ensures |r| > 1 ==> r[0] != '0'
  {
    if n < 10 then [DigitChar(n)]
    else
      var prefix := NatStr(n / 10);
      var r := prefix + [DigitChar(n % 10)];
      assert r[..|r| - 1] == prefix;
      r
  }

  /** Python's `str(i)` for an integer. */
  function IntStr(i: int): string {
    if i < 0 then "-" + NatStr(-i) else NatStr(i)
  }

  /** The characters Python's `int()` accepts after the sign: digits, with single underscores between digits. */
  predicate DigitGroups(s: string) {
    && |s| > 0
    && (forall i :: 0 <= i < |s| ==> IsDigit(s[i]) || s[i] == '_')
    && (forall i :: 0 <= i < |s| && s[i] == '_' ==> 0 < i < |s| - 1 && IsDigit(s[i - 1]) && IsDigit(s[i + 1]))
  }

  function DropUnderscores(s: string): (r: string)
    ensures |r| <= |s|
    ensures (forall i :: 0 <= i < |s| ==> IsDigit(s[i]) || s[i] == '_') ==> AllDigits(r)
    ensures AllDigits(s) ==> r == s
  {
    if s == [] then []
    else if s[0] == '_' then DropUnderscores(s[1..])
    else [s[0]] + DropUnderscores(s[1..])
  }

  /** Python's `int(s)` on a string: `None` where Python raises `ValueError`. */
  function ParseInt(s: string): (r: Option<int>)
  {
    var t := IntStrip(s);
    if t == [] then None
    else
      var negative := t[0] == '-';
      var body := if t[0] == '-' || t[0] == '+' then t[1..] else t;
      if !DigitGroups(body) then None
      else
        var magnitude: int := DigitsValue(DropUnderscores(body));
        Some(if negative then -magnitude else magnitude)
  }

  /** `int()`'s strip leaves a string alone when neither end is whitespace. */
  lemma StripKeeps(s: string)
    requires |s| > 0 && !IntSpace(s[0]) && !IntSpace(s[|s| - 1])
    ensures IntStrip(s) == s
  {
    assert IntLStrip(s) == s;
  }

  /** `int(str(i)) == i`: the decimal form of every integer parses back to it. */
  lemma ParseIntStr(i: int)
    ensures ParseInt(IntStr(i)) == Some(i)
  {
    var s := IntStr(i);
    var digits := NatStr(if i < 0 then -i else i);
    assert s[|s| - 1] == digits[|digits| - 1];
    StripKeeps(s);
    var body := if s[0] == '-' || s[0] == '+' then s[1..] else s;
    assert body == digits;
    assert DigitGroups(body);
  }

  /** `int(s)` raises `ValueError` when `s` starts with a character that is neither stripped whitespace, a sign nor a digit. */
  lemma ParseRejectsLeading(s: string)
    requires |s| > 0 && !IntSpace(s[0]) && !IsDigit(s[0]) && s[0] != '-' && s[0] != '+'
    ensures ParseInt(s) == None
  {
    var t := IntLStrip(s);
    assert t == s;
    var u := IntStrip(s);
    if u != [] {
      assert u[0] == s[0];
      assert !DigitGroups(u);
    }
  }

  /**
    `int(s)` raises `ValueError` when `s` holds, anywhere, a character that is
    not stripped and cannot belong to a literal: not a digit, `_` or sign.
   */
  lemma ParseRejectsStray(s: string, i: nat)
    requires i < |s| && !IntSpace(s[i]) && !IsDigit(s[i])
    requires s[i] != '_' && s[i] != '-' && s[i] != '+'
    ensures ParseInt(s) == None
  {
    var l := IntLStrip(s);
    var a := |s| - |l|;
    assert a <= i;
    assert l[i - a] == s[i];
    var t := IntRStrip(l);
    assert i - a < |t|;
    assert t[i - a] == s[i];
    var body := if t[0] == '-' || t[0] == '+' then t[1..] else t;
    var k := if t[0] == '-' || t[0] == '+' then i - a - 1 else i - a;
    assert 0 <= k < |body| && body[k] == s[i];
    assert !DigitGroups(body);
  }

  /**
    `int(s)` raises `ValueError` on any string holding one of the information
    separators U+001C to U+001F, although `str.isspace` counts them as
    whitespace and `str.split()` splits on them.
   */
  lemma ParseRejectsSeparators(s: string, i: nat)
    requires i < |s| && '\U{001C}' <= s[i] <= '\U{001F}'
    ensures IsSpace(s[i])
    ensures ParseInt(s) == None
  {
    ParseRejectsStray(s, i);
  }
}
