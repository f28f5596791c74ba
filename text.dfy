/**
 * The Python string operations the test bench relies on, written out over
 * `string` (a sequence of `char`): substring search (`sub in s`),
 * `s.split(sep)`, `sep.join(parts)`, `s.replace(old, new)`, `s.strip()`,
 * `s.split()`, `s.splitlines()`, `s.lower()`, `s.upper()`, `s.title()`,
 * and the numeric conversions `float(s)` and `int(s)` on plain decimal text.
 * Case mapping and whitespace are those of the ASCII range.
 */
module Text {
  import opened Base

  /** `c.isspace()` on ASCII: tab, line feed, vertical tab, form feed,
      carriage return, the separators 0x1C..0x1F and the space. */
  predicate IsSpace(c: char) {
    c == ' ' || ('\t' <= c <= '\r') || (28 <= c as int <= 31)
  }

  /** No whitespace anywhere in `s`. */
  predicate NoSpace(s: string) {
    forall k :: 0 <= k < |s| ==> !IsSpace(s[k])
  }

  predicate IsDigit(c: char) { '0' <= c <= '9' }

  predicate AllDigits(s: string) {
    forall k :: 0 <= k < |s| ==> IsDigit(s[k])
  }

  predicate IsLetter(c: char) { 'a' <= c <= 'z' || 'A' <= c <= 'Z' }

  // ---------------------------------------------------------------------
  // Substring search

  /** `sub` occurs in `s` starting at index `i`. */
  predicate IsAt(s: string, sub: string, i: int) {
    0 <= i && i + |sub| <= |s| && s[i..i + |sub|] == sub
  }

  /** `s.find(sub, i)`: the first index at or after `i` where `sub` occurs. */
  function FindFrom(s: string, sub: string, i: nat): (r: Option<nat>)
    requires |sub| > 0 && i <= |s|
    decreases |s| - i
    ensures r.Some? ==> i <= r.value && IsAt(s, sub, r.value)
    ensures r.Some? ==> forall j :: i <= j < r.value ==> !IsAt(s, sub, j)
    ensures r.None? ==> forall j :: i <= j ==> !IsAt(s, sub, j)
  {
    if i + |sub| > |s| then None
    else if s[i..i + |sub|] == sub then Some(i)
    else FindFrom(s, sub, i + 1)
  }

  /** `s.find(sub)`, with None for -1. */
  function Find(s: string, sub: string): (r: Option<nat>)
    requires |sub| > 0
    ensures r.Some? ==> IsAt(s, sub, r.value) && forall j :: 0 <= j < r.value ==> !IsAt(s, sub, j)
    ensures r.None? ==> forall j :: !IsAt(s, sub, j)
  {
    FindFrom(s, sub, 0)
  }

  /** Python's `sub in s`, for a non-empty `sub`. */
  predicate Contains(s: string, sub: string)
    requires |sub| > 0
  {
    Find(s, sub).Some?
  }

  lemma {:induction false} ContainsAt(s: string, sub: string, i: int)
    requires |sub| > 0 && IsAt(s, sub, i)
    ensures Contains(s, sub)
  {
  }

  /** A string contains whatever is written in its middle. */
  lemma {:induction false} ContainsInside(a: string, sub: string, b: string)
    requires |sub| > 0
    ensures Contains(a + sub + b, sub)
  {
    var s := a + sub + b;
    assert s[|a|..|a| + |sub|] == sub;
    ContainsAt(s, sub, |a|);
  }

  // ---------------------------------------------------------------------
  // split / join / replace

  /** `s.split(sep)`: the pieces between the occurrences of `sep`, scanning
      from the left; there are at least two exactly when `sep` occurs. */
  function Split(s: string, sep: string): (parts: seq<string>)
    requires |sep| > 0
    decreases |s|
    ensures |parts| >= 1
    ensures |parts| == 1 <==> !Contains(s, sep)
  {
    match Find(s, sep)
    case None => [s]
    case Some(i) => [s[..i]] + Split(s[i + |sep|..], sep)
  }

  /** The text before the first occurrence of `sep` does not contain it. */
  lemma {:induction false} BeforeFirst(s: string, sep: string, i: nat)
    requires |sep| > 0 && Find(s, sep) == Some(i)
    ensures !Contains(s[..i], sep)
  {
    forall j | IsAt(s[..i], sep, j) ensures false {
      assert s[..i][j..j + |sep|] == s[j..j + |sep|];
      assert IsAt(s, sep, j);
    }
  }

  /** The first piece is the text before the first occurrence, and no piece
      contains the separator. */
  lemma {:induction false} SplitPieces(s: string, sep: string)
    requires |sep| > 0
    ensures Split(s, sep)[0] == if Contains(s, sep) then s[..Find(s, sep).value] else s
    ensures forall k :: 0 <= k < |Split(s, sep)| ==> !Contains(Split(s, sep)[k], sep)
    decreases |s|
  {
    var f := Find(s, sep);
    if f.Some? {
      var i := f.value;
      var rest := s[i + |sep|..];
      var parts, tail := Split(s, sep), Split(rest, sep);
      assert parts == [s[..i]] + tail;
      SplitPieces(rest, sep);
      BeforeFirst(s, sep, i);
      forall k | 0 <= k < |parts| ensures !Contains(parts[k], sep) {
        if k > 0 {
          assert parts[k] == tail[k - 1];
        }
      }
    }
  }

  /** Text without a one-character separator, then the separator: the
      text is the first piece and the rest is split on. */
  lemma {:induction false} SplitAtFirst(x: string, sep: string, y: string)
    requires |sep| == 1 && !Contains(x, sep)
    ensures Split(x + sep + y, sep) == [x] + Split(y, sep)
  {
    var s := x + sep + y;
    assert IsAt(s, sep, |x|) by {
      assert s[|x|..|x| + 1] == sep;
    }
    forall j | 0 <= j < |x| ensures !IsAt(s, sep, j) {
      if IsAt(s, sep, j) {
        assert x[j..j + 1] == s[j..j + 1];
        assert IsAt(x, sep, j);
        ContainsAt(x, sep, j);
      }
    }
    assert Find(s, sep) == Some(|x|);
    assert s[|x| + |sep|..] == y;
    assert s[..|x|] == x;
  }

  /** `sep.join(parts)`. */
  function Join(parts: seq<string>, sep: string): string
  {
    if |parts| == 0 then ""
    else if |parts| == 1 then parts[0]
    else parts[0] + sep + Join(parts[1..], sep)
  }

  lemma {:induction false} SliceSplit(s: string, a: nat, b: nat)
    requires a <= b <= |s|
    ensures s == s[..a] + s[a..b] + s[b..]
  {
  }

  lemma {:induction false} JoinCons(head: string, tail: seq<string>, sep: string)
    requires |tail| >= 1
    ensures Join([head] + tail, sep) == head + sep + Join(tail, sep)
  {
    assert ([head] + tail)[1..] == tail;
  }

  /** Splitting and joining again with the same separator gives back the text. */
  lemma {:induction false} JoinSplit(s: string, sep: string)
    requires |sep| > 0
    ensures Join(Split(s, sep), sep) == s
    decreases |s|
  {
    var f := Find(s, sep);
    if f.Some? {
      var i := f.value;
      var rest := s[i + |sep|..];
      var tail := Split(rest, sep);
      calc {
        Join(Split(s, sep), sep);
      == { assert Split(s, sep) == [s[..i]] + tail; JoinCons(s[..i], tail, sep); }
        s[..i] + sep + Join(tail, sep);
      == { JoinSplit(rest, sep); }
        s[..i] + sep + rest;
      == { assert s[i..i + |sep|] == sep; SliceSplit(s, i, i + |sep|); }
        s;
      }
    }
  }

  /** `s.replace(target, with)` for a non-empty `target`: every occurrence, left to
      right and without overlap, is replaced. */
  function Replace(s: string, target: string, with: string): (r: string)
    requires |target| > 0
    ensures !Contains(s, target) ==> r == s
  {
    Join(Split(s, target), with)
  }

  // ---------------------------------------------------------------------
  // strip / split() / splitlines()

  /** The first index at or after `i` that is not whitespace, or |s|. */
  function SkipSpace(s: string, i: nat): (j: nat)
    requires i <= |s|
    decreases |s| - i
    ensures i <= j <= |s| && (j < |s| ==> !IsSpace(s[j]))
  {
    if i < |s| && IsSpace(s[i]) then SkipSpace(s, i + 1) else i
  }

  /** The end of `s[..j]` once its trailing whitespace is dropped. */
  function SkipSpaceBack(s: string, j: nat): (k: nat)
    requires j <= |s|
    ensures k <= j && (k > 0 ==> !IsSpace(s[k - 1]))
  {
    if j > 0 && IsSpace(s[j - 1]) then SkipSpaceBack(s, j - 1) else j
  }

  /** `s.strip()`: neither end of the result is whitespace, and text whose
      ends are not whitespace is left as it is. */
  function Strip(s: string): (r: string)
    ensures |r| <= |s|
    ensures r == [] || (!IsSpace(r[0]) && !IsSpace(r[|r| - 1]))
    ensures s == [] || (!IsSpace(s[0]) && !IsSpace(s[|s| - 1])) ==> r == s
  {
    var a, b := SkipSpace(s, 0), SkipSpaceBack(s, |s|);
    if b <= a then [] else s[a..b]
  }

  /** The first whitespace index at or after `i`, or |s|. */
  function TokenEnd(s: string, i: nat): (j: nat)
    requires i <= |s|
    decreases |s| - i
    ensures i <= j <= |s| && (j < |s| ==> IsSpace(s[j]))
    ensures forall k :: i <= k < j ==> !IsSpace(s[k])
  {
    if i < |s| && !IsSpace(s[i]) then TokenEnd(s, i + 1) else i
  }

  /** The words of `s[i..]`. */
  function WordsFrom(s: string, i: nat): (ws: seq<string>)
    requires i <= |s|
    decreases |s| - i
    ensures forall k :: 0 <= k < |ws| ==> ws[k] != [] && NoSpace(ws[k])
  {
    var a := SkipSpace(s, i);
    if a == |s| then []
    else
      var b := TokenEnd(s, a);
      assert forall k :: 0 <= k < b - a ==> s[a..b][k] == s[a + k];
      [s[a..b]] + WordsFrom(s, b)
  }

  /** One leading blank is stripped off text that has none of its own at
      either end. */
  lemma {:induction false} StripLeadingBlank(s: string)
    requires s != [] && !IsSpace(s[0]) && !IsSpace(s[|s| - 1])
    ensures Strip(" " + s) == s
  {
    var t := " " + s;
    assert SkipSpace(t, 1) == 1;
    assert SkipSpace(t, 0) == 1;
    assert SkipSpaceBack(t, |t|) == |t|;
    assert t[1..|t|] == s;
  }

  /** One trailing blank is stripped off text that has none of its own at
      either end. */
  lemma {:induction false} StripTrailingBlank(s: string)
    requires s != [] && !IsSpace(s[0]) && !IsSpace(s[|s| - 1])
    ensures Strip(s + " ") == s
  {
    var t := s + " ";
    assert SkipSpace(t, 0) == 0;
    assert SkipSpaceBack(t, |s|) == |s|;
    assert SkipSpaceBack(t, |t|) == |s|;
    assert t[0..|s|] == s;
  }

  /** `s.split()`: the maximal runs of non-whitespace, in order. */
  function Words(s: string): (ws: seq<string>)
    ensures forall k :: 0 <= k < |ws| ==> ws[k] != [] && NoSpace(ws[k])
  {
    WordsFrom(s, 0)
  }

  /** The line boundaries of `s.splitlines()` (the ASCII ones and U+0085,
      U+2028, U+2029); "\r\n" counts as one boundary. */
  predicate IsLineBreak(c: char) {
    c == '\n' || c == '\r' || c as int == 11 || c as int == 12
    || (28 <= c as int <= 30) || c as int == 0x85 || c as int == 0x2028 || c as int == 0x2029
  }

  function LineLength(s: string): (n: nat)
    ensures n <= |s| && (n < |s| ==> IsLineBreak(s[n]))
    ensures forall k :: 0 <= k < n ==> !IsLineBreak(s[k])
  {
    if s == [] || IsLineBreak(s[0]) then 0 else LineLength(s[1..]) + 1
  }

  /** `s.splitlines()`: no line holds a line break, a final break does not
      start an empty line, and only empty text has no lines. */
  function SplitLines(s: string): (lines: seq<string>)
    decreases |s|
    ensures (lines == []) <==> (s == [])
    ensures forall k, j :: 0 <= k < |lines| && 0 <= j < |lines[k]| ==> !IsLineBreak(lines[k][j])
  {
    if s == [] then []
    else
      var n := LineLength(s);
      if n == |s| then [s]
      else
        var next := if s[n] == '\r' && n + 1 < |s| && s[n + 1] == '\n' then n + 2 else n + 1;
        [s[..n]] + SplitLines(s[next..])
  }

  // ---------------------------------------------------------------------
  // Case mapping

  function LowerChar(c: char): (d: char)
    ensures !('A' <= d <= 'Z')
  {
    if 'A' <= c <= 'Z' then (c as int + 32) as char else c
  }

  function UpperChar(c: char): (d: char)
    ensures !('a' <= d <= 'z')
  {
    if 'a' <= c <= 'z' then (c as int - 32) as char else c
  }

  /** `s.lower()`. */
  function Lower(s: string): (r: string)
    ensures |r| == |s| && forall k :: 0 <= k < |s| ==> r[k] == LowerChar(s[k])
  {
    seq(|s|, k requires 0 <= k < |s| => LowerChar(s[k]))
  }

  /** `s.upper()`. */
  function Upper(s: string): (r: string)
    ensures |r| == |s| && forall k :: 0 <= k < |s| ==> r[k] == UpperChar(s[k])
  {
    seq(|s|, k requires 0 <= k < |s| => UpperChar(s[k]))
  }

  /** `s.title()`: a letter is upper-cased when the character before it is
      not a letter and lower-cased otherwise; other characters are kept. */
  function TitleFrom(s: string, afterLetter: bool): (r: string)
    ensures |r| == |s|
  {
    if s == [] then []
    else
      var c := s[0];
      var d := if !IsLetter(c) then c else if afterLetter then LowerChar(c) else UpperChar(c);
      [d] + TitleFrom(s[1..], IsLetter(c))
  }

  function Title(s: string): (r: string)
    ensures |r| == |s|
  {
    TitleFrom(s, false)
  }

  /** Title-casing changes only case: lower-casing afterwards gives the
      lower-cased original. */
  lemma {:induction false} LowerTitleFrom(s: string, afterLetter: bool)
    ensures Lower(TitleFrom(s, afterLetter)) == Lower(s)
  {
    if s != [] {
      LowerTitleFrom(s[1..], IsLetter(s[0]));
      var t := TitleFrom(s, afterLetter);
      assert t == [t[0]] + TitleFrom(s[1..], IsLetter(s[0]));
      assert LowerChar(t[0]) == LowerChar(s[0]);
      assert Lower(t) == [LowerChar(t[0])] + Lower(t[1..]);
      assert Lower(s) == [LowerChar(s[0])] + Lower(s[1..]);
    }
  }

  lemma {:induction false} LowerTitle(s: string)
    ensures Lower(Title(s)) == Lower(s)
  {
    LowerTitleFrom(s, false);
  }

  // ---------------------------------------------------------------------
  // Numbers

  /** The value of a run of decimal digits. */
  function DigitsValue(s: string): nat
    requires AllDigits(s)
  {
    if s == [] then 0 else DigitsValue(s[..|s| - 1]) * 10 + (s[|s| - 1] as int - '0' as int)
  }

  function Pow10(k: nat): (p: nat)
    ensures p >= 1
  {
    if k == 0 then 1 else 10 * Pow10(k - 1)
  }

  function DigitChar(d: nat): (c: char)
    requires d < 10
    ensures IsDigit(c) && c as int - '0' as int == d
  {
    ('0' as int + d) as char
  }

  /** `str(n)` for a natural number. */
  function NatString(n: nat): (s: string)
    ensures s != [] && AllDigits(s)
  {
    if n < 10 then [DigitChar(n)] else NatString(n / 10) + [DigitChar(n % 10)]
  }

  lemma {:induction false} DigitsValueNatString(n: nat)
    ensures DigitsValue(NatString(n)) == n
  {
    if n >= 10 {
      DigitsValueNatString(n / 10);
      var s := NatString(n);
      assert s[..|s| - 1] == NatString(n / 10);
    }
  }

  /** Text in which a one-character separator never appears does not
      contain it. */
  lemma {:induction false} CharAbsent(s: string, sep: string)
    requires |sep| == 1 && forall k :: 0 <= k < |s| ==> s[k] != sep[0]
    ensures !Contains(s, sep)
  {
    forall j | 0 <= j && j + 1 <= |s| ensures !IsAt(s, sep, j) {
      assert s[j..j + 1][0] == s[j];
    }
  }

  /** The sign in front of a number: (negative, text after the sign). */
  function SignOf(t: string): (bool, string)
  {
    if |t| > 0 && (t[0] == '-' || t[0] == '+') then (t[0] == '-', t[1..]) else (false, t)
  }

  /** `float(s)` on plain decimal notation: surrounding whitespace, an
      optional sign, digits with at most one decimal point, at least one digit. */
  function ParseDecimal(s: string): (r: Option<real>)
  {
    var sign := SignOf(Strip(s));
    var parts := Split(sign.1, ".");
    if |parts| > 2 then None
    else
      var whole := parts[0];
      var frac := if |parts| == 2 then parts[1] else "";
      if AllDigits(whole) && AllDigits(frac) && |whole| + |frac| > 0 then
        var mag := DigitsValue(whole) as real + DigitsValue(frac) as real / Pow10(|frac|) as real;
        Some(if sign.0 then -mag else mag)
      else None
  }

  /** Text that is only digits (after stripping) reads as that whole number. */
  lemma {:induction false} ParseDecimalDigits(s: string)
    requires Strip(s) != [] && AllDigits(Strip(s))
    ensures ParseDecimal(s) == Some(DigitsValue(Strip(s)) as real)
  {
    var t := Strip(s);
    assert SignOf(t) == (false, t);
    CharAbsent(t, ".");
    assert Split(t, ".") == [t];
  }

  /** `int(s)`: surrounding whitespace, an optional sign and at least one digit. */
  function ParseInt(s: string): (r: Option<int>)
    ensures r.Some? ==> Strip(s) != []
  {
    var sign := SignOf(Strip(s));
    if sign.1 != [] && AllDigits(sign.1) then
      Some(if sign.0 then -(DigitsValue(sign.1) as int) else DigitsValue(sign.1) as int)
    else None
  }

  /** `int(str(n)) == n`. */
  lemma {:induction false} ParseIntNatString(n: nat)
    ensures ParseInt(NatString(n)) == Some(n)
  {
    var s := NatString(n);
    assert !IsSpace(s[0]) && !IsSpace(s[|s| - 1]);
    DigitsValueNatString(n);
  }
}
