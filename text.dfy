/** The parts of Python's string handling that the decoders rely on:
    whitespace stripping, `str.split()`, `str.split(sep)`, slicing and
    `int()`. Only ASCII digits and ASCII whitespace are modelled. */
module Text {
  import opened Common

  /** ASCII whitespace as Python's `str.split()` and `str.strip()` see it. */
  predicate IsSpace(c: char) {
    var n := c as int;
    n == 32 || 9 <= n <= 13 || 28 <= n <= 31
  }

  predicate IsDigit(c: char) { '0' <= c <= '9' }

  predicate AllDigits(s: string) { forall i :: 0 <= i < |s| ==> IsDigit(s[i]) }

  function Spaces(k: nat): (s: string)
    ensures |s| == k
    decreases k
  {
    if k == 0 then [] else [' '] + Spaces(k - 1)
  }

  /** `s.lstrip()`: drops the leading whitespace and nothing else. */
  function TrimLeft(s: string): (r: string)
    ensures |r| <= |s|
    ensures r == [] || !IsSpace(r[0])
    ensures forall i :: 0 <= i < |s| - |r| ==> IsSpace(s[i])
    decreases |s|
  {
    if s != [] && IsSpace(s[0]) then TrimLeft(s[1..]) else s
  }

  /** `s.rstrip()`: drops the trailing whitespace and nothing else. */
  function TrimRight(s: string): (r: string)
    ensures |r| <= |s| && r == s[..|r|]
    ensures r == [] || !IsSpace(r[|r| - 1])
    ensures forall i :: |r| <= i < |s| ==> IsSpace(s[i])
    decreases |s|
  {
    if s != [] && IsSpace(s[|s| - 1]) then TrimRight(s[..|s| - 1]) else s
  }

  /** `s.strip()`. */
  function Strip(s: string): string {
    TrimRight(TrimLeft(s))
  }

  /** Length of the longest whitespace-free prefix of `t`. */
  function WordLength(t: string): (k: nat)
    ensures k <= |t|
    ensures forall i :: 0 <= i < k ==> !IsSpace(t[i])
    ensures k < |t| ==> IsSpace(t[k])
    decreases |t|
  {
    if t == [] || IsSpace(t[0]) then 0 else 1 + WordLength(t[1..])
  }

  /** `s.split()`: the maximal runs of non-whitespace characters, in order. */
  function Words(s: string): (r: seq<string>)
    ensures forall w :: w in r ==> w != [] && forall i :: 0 <= i < |w| ==> !IsSpace(w[i])
    decreases |s|
  {
    var t := TrimLeft(s);
    if t == [] then []
    else
      var k := WordLength(t);
      [t[..k]] + Words(t[k..])
  }

  predicate Blank(s: string) { forall i :: 0 <= i < |s| ==> IsSpace(s[i]) }

  lemma {:induction false} TrimLeftBlank(pre: string, t: string)
    requires Blank(pre)
    ensures TrimLeft(pre + t) == TrimLeft(t)
    decreases |pre|
  {
    if pre != [] {
      var s := pre + t;
      assert s[0] == pre[0] && s[1..] == pre[1..] + t;
      TrimLeftBlank(pre[1..], t);
    } else {
      assert pre + t == t;
    }
  }

  lemma {:induction false} WordLengthOf(w: string, tail: string)
    requires forall i :: 0 <= i < |w| ==> !IsSpace(w[i])
    requires tail == [] || IsSpace(tail[0])
    ensures WordLength(w + tail) == |w|
    decreases |w|
  {
    var s := w + tail;
    if w != [] {
      assert s[0] == w[0] && s[1..] == w[1..] + tail;
      WordLengthOf(w[1..], tail);
    } else {
      assert s == tail;
    }
  }

  /** Whitespace alone has no words. */
  lemma WordsOfBlank(pre: string)
    requires Blank(pre)
    ensures Words(pre) == []
  {
    TrimLeftBlank(pre, []);
    assert pre + [] == pre;
  }

  /** Whitespace, then a run of non-whitespace that ends at whitespace or at
      the end of the text: that run is the first word, and the words of the
      rest follow it. With WordsOfBlank this fixes `Words` on every text. */
  lemma WordsCons(pre: string, w: string, tail: string)
    requires Blank(pre)
    requires w != [] && forall i :: 0 <= i < |w| ==> !IsSpace(w[i])
    requires tail == [] || IsSpace(tail[0])
    ensures Words(pre + w + tail) == [w] + Words(tail)
  {
    var t := w + tail;
    assert pre + w + tail == pre + t;
    TrimLeftBlank(pre, t);
    assert t[0] == w[0];
    WordLengthOf(w, tail);
    assert t[..|w|] == w && t[|w|..] == tail;
  }

  /** `s.split(sep)` for a one-character separator: never empty, and no
      piece holds the separator. */
  function Split(s: string, sep: char): (r: seq<string>)
    ensures |r| >= 1
    ensures forall w :: w in r ==> sep !in w
    decreases |s|
  {
    if s == [] then [[]]
    else if s[0] == sep then [[]] + Split(s[1..], sep)
    else
      var t := Split(s[1..], sep);
      [[s[0]] + t[0]] + t[1..]
  }

  /** A separator-free text followed by the separator is split off as the first piece. */
  lemma {:induction false} SplitAtFirst(a: string, sep: char, b: string)
    requires sep !in a
    ensures Split(a + [sep] + b, sep) == [a] + Split(b, sep)
    decreases |a|
  {
    var s := a + [sep] + b;
    if a == [] {
      assert s[0] == sep && s[1..] == b;
    } else {
      assert s[0] == a[0] && s[1..] == a[1..] + [sep] + b;
      SplitAtFirst(a[1..], sep, b);
      assert [a[0]] + a[1..] == a;
    }
  }

  /** A text without the separator is one piece. */
  lemma {:induction false} SplitWhole(s: string, sep: char)
    requires sep !in s
    ensures Split(s, sep) == [s]
    decreases |s|
  {
    if s != [] {
      assert s[0] != sep && sep !in s[1..];
      SplitWhole(s[1..], sep);
      assert [s[0]] + s[1..] == s;
    }
  }

  /** Python slicing `s[a:b]` for 0 <= a <= b: indices past the end are clipped. */
  function Slice(s: string, a: nat, b: nat): (r: string)
    requires a <= b
    ensures |r| == (if |s| <= a then 0 else if |s| <= b then |s| - a else b - a)
    ensures forall i :: 0 <= i < |r| ==> r[i] == s[a + i]
  {
    if |s| <= a then [] else if |s| <= b then s[a..] else s[a..b]
  }

  function DigitValue(c: char): nat
    requires IsDigit(c)
  {
    c as int - '0' as int
  }

  function DigitChar(k: nat): (c: char)
    requires k < 10
    ensures IsDigit(c) && DigitValue(c) == k
  {
    ('0' as int + k) as char
  }

  /** The number an all-digit text spells in base 10. */
  function Value(d: string): nat
    requires AllDigits(d)
    decreases |d|
  {
    if d == [] then 0 else Value(d[..|d| - 1]) * 10 + DigitValue(d[|d| - 1])
  }

  /** The base-10 digits of `n`, without leading zeros. */
  function DigitsOf(n: nat): (d: string)
    ensures d != [] && AllDigits(d) && Value(d) == n
    ensures IsDigit(d[0]) && IsDigit(d[|d| - 1])
    decreases n
  {
    if n < 10 then [DigitChar(n)]
    else
      var d := DigitsOf(n / 10) + [DigitChar(n % 10)];
      assert d[..|d| - 1] == DigitsOf(n / 10);
      d
  }

  /** `str(n)` for an integer. */
  function Show(n: int): string {
    if n < 0 then "-" + DigitsOf(-n) else DigitsOf(n)
  }

  /** Python's `int(s)` in base 10: surrounding whitespace, an optional sign,
      then one or more digits. */
  function ParseInt(s: string): Option<int> {
    var t := Strip(s);
    if t != [] && (t[0] == '-' || t[0] == '+') then
      var d := t[1..];
      var v: int := if d != [] && AllDigits(d) then Value(d) else 0;
      if d != [] && AllDigits(d) then Some(if t[0] == '-' then -v else v) else None
    else if t != [] && AllDigits(t) then Some(Value(t))
    else None
  }

  /** The idiom `try: int(x) except: int(x[:-1])` used on fixed-width fields
      that may end in a one-character flag; when the retry fails too, the
      ValueError escapes. */
  function ParseFlagged(s: string): Result<int> {
    match ParseInt(s)
    case Some(v) => Ok(v)
    case None =>
      match ParseInt(if s == [] then [] else s[..|s| - 1])
      case Some(v) => Ok(v)
      case None => Err(ValueError)
  }

  lemma {:induction false} TrimLeftSpaces(k: nat, t: string)
    ensures TrimLeft(Spaces(k) + t) == TrimLeft(t)
    decreases k
  {
    if k > 0 {
      var s := Spaces(k) + t;
      assert s == [' '] + (Spaces(k - 1) + t);
      assert s[0] == ' ' && s[1..] == Spaces(k - 1) + t;
      assert IsSpace(s[0]);
      assert TrimLeft(s) == TrimLeft(s[1..]);
      TrimLeftSpaces(k - 1, t);
    } else {
      assert Spaces(k) + t == t;
    }
  }

  /** Text that begins and ends with a non-blank character is left alone by strip. */
  lemma StripSolid(t: string)
    requires t != [] && !IsSpace(t[0]) && !IsSpace(t[|t| - 1])
    ensures Strip(t) == t
  {
  }

  /** `int` reads back what `str` wrote. */
  lemma ParseShow(n: int)
    ensures ParseInt(Show(n)) == Some(n)
  {
    var s := Show(n);
    if n < 0 {
      assert s[0] == '-' && s[|s| - 1] == DigitsOf(-n)[|DigitsOf(-n)| - 1];
      StripSolid(s);
      assert s[1..] == DigitsOf(-n);
    } else {
      StripSolid(s);
    }
  }

  /** The signed zero-padded form the surface archive uses ("+0123", "-0050")
      reads as the number its digits spell. */
  lemma ParseSignedDigits(sign: char, d: string)
    requires sign == '+' || sign == '-'
    requires d != [] && AllDigits(d)
    ensures ParseInt([sign] + d) == Some(if sign == '-' then 0 - Value(d) else Value(d))
  {
    var s := [sign] + d;
    assert s[|s| - 1] == d[|d| - 1];
    StripSolid(s);
    assert s[1..] == d;
  }

  /** Leading padding and no trailing blanks: strip removes exactly the padding. */
  lemma StripPadded(pad: nat, t: string)
    requires t != [] && !IsSpace(t[0]) && !IsSpace(t[|t| - 1])
    ensures Strip(Spaces(pad) + t) == t
  {
    TrimLeftSpaces(pad, t);
    StripSolid(t);
  }

  /** Text whose stripped form ends in something other than a digit is not an integer. */
  lemma TrailingFlagIsNotANumber(s: string)
    requires Strip(s) != [] && !IsDigit(Strip(s)[|Strip(s)| - 1])
    ensures ParseInt(s) == None
  {
    var t := Strip(s);
    if |t| > 1 {
      assert t[1..][|t| - 2] == t[|t| - 1];
    }
  }

  /** A right-aligned number followed by a one-letter flag, as in "  20973B":
      the first `int()` fails on the flag and the retry without the last
      character yields the number. */
  lemma ParseFlaggedField(pad: nat, n: int, flag: char)
    requires !IsDigit(flag) && !IsSpace(flag)
    ensures ParseFlagged(Spaces(pad) + Show(n) + [flag]) == Ok(n)
  {
    var body := Show(n);
    var d := DigitsOf(if n < 0 then -n else n);
    assert body[|body| - 1] == d[|d| - 1];
    assert body[0] == '-' || IsDigit(body[0]);
    var t := body + [flag];
    var s := Spaces(pad) + t;
    assert Spaces(pad) + body + [flag] == s;
    StripPadded(pad, t);
    TrailingFlagIsNotANumber(s);
    assert s[..|s| - 1] == Spaces(pad) + body;
    StripPadded(pad, body);
    ParseShow(n);
    assert ParseInt(Spaces(pad) + body) == ParseInt(body);
  }
}
