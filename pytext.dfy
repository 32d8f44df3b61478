/** The Python string and integer built-ins that the page-range parser, the
    output-naming code and the extraction helpers rely on: `str.strip()`,
    `str.split(sep)`, `sep.join`, `"-" in s`, `int(s)`, the `{n:02d}` format
    and the truthiness test `s and s.strip()`, written out as functions.
    Strings are sequences of Unicode code points, as Python's `str` is. */
module PyText {
  import opened Results

  /** The characters Python's `str.isspace` accepts, and so the ones
      `str.strip()` removes from both ends. */
  predicate IsSpace(c: char)
  {
    || '\t' <= c <= '\r'
    || '\U{1C}' <= c <= '\U{20}'
    || c == '\U{85}' || c == '\U{A0}' || c == '\U{1680}'
    || '\U{2000}' <= c <= '\U{200A}'
    || c == '\U{2028}' || c == '\U{2029}' || c == '\U{202F}' || c == '\U{205F}' || c == '\U{3000}'
  }

  /** The characters `int()` skips at both ends: the ASCII whitespace
      `\t\n\v\f\r` and space, and the non-ASCII characters `str.isspace`
      accepts.  The ASCII separators U+001C..U+001F are whitespace to
      `str.isspace` but not to `int()`. */
  predicate IntSpace(c: char)
  {
    IsSpace(c) && !('\U{1C}' <= c <= '\U{1F}')
  }

  predicate IsDigit(c: char)
  {
    '0' <= c <= '9'
  }

  predicate AllSpace(s: string)
  {
    forall k :: 0 <= k < |s| ==> IsSpace(s[k])
  }

  function DigitValue(c: char): (d: nat)
    requires IsDigit(c)
    ensures d < 10
  {
    (c as int) - ('0' as int)
  }

  function DigitChar(d: nat): (c: char)
    requires d < 10
    ensures IsDigit(c) && DigitValue(c) == d
  {
    (('0' as int) + d) as char
  }

  /** Drops the leading whitespace of `s`. */
  function LStrip(s: string): (r: string)
    ensures |r| <= |s| && r == s[|s| - |r|..]
    ensures forall k :: 0 <= k < |s| - |r| ==> IsSpace(s[k])
    ensures r != [] ==> !IsSpace(r[0])
  {
    if s != [] && IsSpace(s[0]) then LStrip(s[1..]) else s
  }

  /** Drops the trailing whitespace of `s`. */
  function RStrip(s: string): (r: string)
    ensures |r| <= |s| && r == s[..|r|]
    ensures forall k :: |r| <= k < |s| ==> IsSpace(s[k])
    ensures r != [] ==> !IsSpace(r[|r| - 1])
  {
    if s != [] && IsSpace(s[|s| - 1]) then RStrip(s[..|s| - 1]) else s
  }

  /** `s.strip()`: nothing left of `s` is whitespace at either end, and the
      result is empty exactly when `s` is all whitespace. */
  function Strip(s: string): (r: string)
    ensures r != [] ==> !IsSpace(r[0]) && !IsSpace(r[|r| - 1])
    ensures r == [] <==> AllSpace(s)
  {
    var l := LStrip(s);
    assert l != [] ==> !IsSpace(l[0]) && s[|s| - |l|] == l[0];
    RStrip(l)
  }

  predicate AllIntSpace(s: string)
  {
    forall k :: 0 <= k < |s| ==> IntSpace(s[k])
  }

  /** Drops the leading characters `int()` skips. */
  function IntLStrip(s: string): (r: string)
    ensures |r| <= |s| && r == s[|s| - |r|..]
    ensures forall k :: 0 <= k < |s| - |r| ==> IntSpace(s[k])
    ensures r != [] ==> !IntSpace(r[0])
  {
    if s != [] && IntSpace(s[0]) then IntLStrip(s[1..]) else s
  }

  /** Drops the trailing characters `int()` skips. */
  function IntRStrip(s: string): (r: string)
    ensures |r| <= |s| && r == s[..|r|]
    ensures forall k :: |r| <= k < |s| ==> IntSpace(s[k])
    ensures r != [] ==> !IntSpace(r[|r| - 1])
  {
    if s != [] && IntSpace(s[|s| - 1]) then IntRStrip(s[..|s| - 1]) else s
  }

  /** The text `int()` reads: `s` without the surrounding characters it
      skips; empty exactly when every character of `s` is one of them. */
  function IntStrip(s: string): (r: string)
    ensures r != [] ==> !IntSpace(r[0]) && !IntSpace(r[|r| - 1])
    ensures r == [] <==> AllIntSpace(s)
  {
    var l := IntLStrip(s);
    assert l != [] ==> !IntSpace(l[0]) && s[|s| - |l|] == l[0];
    IntRStrip(l)
  }

  /** `not (s and s.strip())`: the string is empty or all whitespace, so
      (by the contract of `Strip`) exactly when `Strip(s)` is empty. */
  predicate Blank(s: string)
  {
    AllSpace(s)
  }

  /** The position of the first `c` in `s` (what `str.split(c, 1)` cuts at). */
  function IndexOf(s: string, c: char): (k: nat)
    requires c in s
    ensures k < |s| && s[k] == c && c !in s[..k]
  {
    if s[0] == c then 0 else 1 + IndexOf(s[1..], c)
  }

  /** `sep.join(parts)`. */
  function Join(parts: seq<string>, sep: char): string
  {
    if |parts| == 0 then ""
    else if |parts| == 1 then parts[0]
    else parts[0] + [sep] + Join(parts[1..], sep)
  }

  /** `s.split(sep)`: the pieces between successive separators; there is
      always at least one piece, and joining them back gives `s`. */
  function Split(s: string, sep: char): (parts: seq<string>)
    ensures |parts| > 0
    ensures forall i :: 0 <= i < |parts| ==> sep !in parts[i]
    ensures Join(parts, sep) == s
    decreases |s|
  {
    if sep !in s then [s]
    else
      var k := IndexOf(s, sep);
      var rest := Split(s[k + 1..], sep);
      var parts := [s[..k]] + rest;
      assert parts[1..] == rest;
      assert s == s[..k] + [sep] + s[k + 1..];
      parts
  }

  /** The body `int()` accepts after an optional sign: ASCII digits, with
      single underscores allowed between two digits. Read from the right: a
      digit, preceded by nothing, by digit groups, or by digit groups and one
      underscore. */
  predicate DigitGroups(s: string)
    decreases |s|
  {
    && |s| > 0 && IsDigit(s[|s| - 1])
    && var t := s[..|s| - 1];
       || t == []
       || DigitGroups(t)
       || (t[|t| - 1] == '_' && DigitGroups(t[..|t| - 1]))
  }

  /** The base-10 value of the digits of `s`; anything else is skipped. */
  function DigitsValue(s: string): nat
  {
    if s == [] then 0
    else
      var t := s[..|s| - 1];
      if IsDigit(s[|s| - 1]) then 10 * DigitsValue(t) + DigitValue(s[|s| - 1]) else DigitsValue(t)
  }

  /** `int(s)` with base 10; `None` where Python raises `ValueError`.
      The whitespace `int()` skips around the number is ignored; text that
      is empty or only such whitespace is rejected. */
  function ParseInt(s: string): (r: Option<int>)
    ensures AllIntSpace(s) ==> r.None?
  {
    ParseSigned(IntStrip(s))
  }

  /** An optional `+` or `-`, then digit groups. */
  function ParseSigned(t: string): Option<int>
  {
    if t != [] && (t[0] == '+' || t[0] == '-') then
      var ds := t[1..];
      if !DigitGroups(ds) then None
      else if t[0] == '-' then Some(-(DigitsValue(ds) as int))
      else Some(DigitsValue(ds))
    else if DigitGroups(t) then Some(DigitsValue(t))
    else None
  }

  /** The decimal digits of `n`, most significant first, without leading zeros. */
  function Decimal(n: nat): (r: string)
    ensures r != [] && forall i :: 0 <= i < |r| ==> IsDigit(r[i])
    ensures n >= 10 ==> |r| >= 2
    ensures n < 10 ==> |r| == 1
    ensures n >= 1 ==> r[0] != '0'
  {
    if n < 10 then [DigitChar(n)] else Decimal(n / 10) + [DigitChar(n % 10)]
  }

  /** `str(n)`. */
  function IntToString(n: int): string
  {
    if n < 0 then "-" + Decimal(-n) else Decimal(n)
  }

  /** `f"{n:02d}"`: `n` in decimal, zero-filled to at least two characters
      (a minus sign counts towards the width). */
  function Pad2(n: int): (r: string)
    ensures |r| >= 2
    ensures n >= 0 ==> forall i :: 0 <= i < |r| ==> IsDigit(r[i])
    ensures 0 <= n < 10 ==> |r| == 2 && r[0] == '0'
    ensures n >= 10 ==> r[0] != '0'
    ensures n < 0 ==> r[0] == '-' && forall i :: 1 <= i < |r| ==> IsDigit(r[i])
  {
    if n < 0 then "-" + Decimal(-n)
    else if n < 10 then "0" + Decimal(n)
    else Decimal(n)
  }

  lemma StripNoop(s: string)
    requires s != [] ==> !IsSpace(s[0]) && !IsSpace(s[|s| - 1])
    ensures Strip(s) == s
  {
  }

  lemma IntStripNoop(s: string)
    requires s != [] ==> !IntSpace(s[0]) && !IntSpace(s[|s| - 1])
    ensures IntStrip(s) == s
  {
  }

  /** Stripping removes exactly the surrounding whitespace. */
  lemma {:induction false} StripSurrounded(w1: string, t: string, w2: string)
    requires AllSpace(w1) && AllSpace(w2)
    requires t != [] ==> !IsSpace(t[0]) && !IsSpace(t[|t| - 1])
    ensures Strip(w1 + t + w2) == t
  {
    if t == [] {
      assert AllSpace(w1 + t + w2);
    } else {
      assert w1 + t + w2 == w1 + (t + w2);
      assert (t + w2)[0] == t[0];
      LStripSpaces(w1, t + w2);
      RStripSpaces(t, w2);
      assert Strip(w1 + t + w2) == RStrip(t + w2);
    }
  }

  lemma {:induction false} LStripSpaces(w: string, s: string)
    requires AllSpace(w)
    requires s != [] ==> !IsSpace(s[0])
    ensures LStrip(w + s) == s
    decreases |w|
  {
    if w != [] {
      assert (w + s)[1..] == w[1..] + s;
      LStripSpaces(w[1..], s);
    } else {
      assert w + s == s;
    }
  }

  lemma {:induction false} RStripSpaces(s: string, w: string)
    requires AllSpace(w)
    requires s != [] && !IsSpace(s[|s| - 1])
    ensures RStrip(s + w) == s
    decreases |w|
  {
    if w != [] {
      assert (s + w)[..|s + w| - 1] == s + w[..|w| - 1];
      RStripSpaces(s, w[..|w| - 1]);
    } else {
      assert s + w == s;
    }
  }

  /** A joined string starts with its first piece. */
  lemma JoinStartsWith(parts: seq<string>, sep: char)
    requires |parts| > 0
    ensures |Join(parts, sep)| >= |parts[0]| && Join(parts, sep)[..|parts[0]|] == parts[0]
  {
    if |parts| > 1 {
      assert Join(parts, sep) == parts[0] + ([sep] + Join(parts[1..], sep));
    }
  }

  /** `str.split` undoes `str.join` when no piece holds the separator. */
  lemma {:induction false} SplitJoin(parts: seq<string>, sep: char)
    requires |parts| > 0
    requires forall i :: 0 <= i < |parts| ==> sep !in parts[i]
    ensures Split(Join(parts, sep), sep) == parts
  {
    if |parts| == 1 {
    } else {
      var p0, rest := parts[0], Join(parts[1..], sep);
      var s := p0 + [sep] + rest;
      assert s[|p0|] == sep;
      var k := IndexOf(s, sep);
      assert s[..k] == p0;
      assert s[k + 1..] == rest;
      SplitJoin(parts[1..], sep);
      assert [p0] + parts[1..] == parts;
    }
  }

  lemma {:induction false} DecimalValue(n: nat)
    ensures DigitGroups(Decimal(n))
    ensures DigitsValue(Decimal(n)) == n
  {
    if n >= 10 {
      DecimalValue(n / 10);
      var a := Decimal(n / 10);
      var s := a + [DigitChar(n % 10)];
      assert s[..|s| - 1] == a;
    } else {
      var s := Decimal(n);
      assert s[..|s| - 1] == [];
    }
  }

  lemma ParseSignedDecimal(n: nat)
    ensures ParseSigned(Decimal(n)) == Some(n)
    ensures ParseSigned("-" + Decimal(n)) == Some(-(n as int))
  {
    var d := Decimal(n);
    DecimalValue(n);
    assert ("-" + d)[1..] == d;
  }

  /** `int(str(n)) == n` for a natural number. */
  lemma ParseIntDecimal(n: nat)
    ensures ParseInt(Decimal(n)) == Some(n)
  {
    ParseSignedDecimal(n);
    IntStripNoop(Decimal(n));
  }

  /** `int("-" + str(n)) == -n`. */
  lemma ParseIntNegative(n: nat)
    ensures ParseInt("-" + Decimal(n)) == Some(-(n as int))
  {
    ParseSignedDecimal(n);
    IntStripNoop("-" + Decimal(n));
  }

  /** `int()` rejects a number followed by an ASCII separator, which
      `str.strip()` would have removed. */
  lemma ParseIntKeepsSeparator()
    ensures Strip("1\U{1C}") == "1"
    ensures ParseInt("1\U{1C}") == None
  {
    var s := "1\U{1C}";
    assert s[0] == '1' && s[1] == '\U{1C}' && s[..1] == "1";
    assert LStrip(s) == s;
    assert RStrip(s) == RStrip("1") == "1";
    IntStripNoop(s);
    assert !DigitGroups(s);
  }

  /** `int(str(n)) == n`. */
  lemma ParseIntToString(n: int)
    ensures ParseInt(IntToString(n)) == Some(n)
  {
    var s := IntToString(n);
    if n < 0 {
      ParseSignedDecimal(-n);
    } else {
      ParseSignedDecimal(n);
    }
    IntStripNoop(s);
  }

  /** `int(f"{n:02d}") == n`: a zero-filled number reads back as itself. */
  lemma ParseIntPad2(n: int)
    ensures ParseInt(Pad2(n)) == Some(n)
  {
    if n < 0 || n >= 10 {
      ParseIntToString(n);
    } else {
      var d := DigitChar(n);
      var s := Pad2(n);
      assert s == ['0', d];
      IntStripNoop(s);
      assert s[..1] == ['0'] && ['0'][..0] == [];
      assert DigitsValue(['0']) == 0;
      assert DigitGroups(s);
      assert ParseSigned(s) == Some(n);
    }
  }

  /** Different numbers are formatted differently. */
  lemma Pad2Injective(m: int, n: int)
    requires Pad2(m) == Pad2(n)
    ensures m == n
  {
    ParseIntPad2(m);
    ParseIntPad2(n);
  }
}
