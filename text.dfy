/**
 * The handful of Python string operations the solvers are built on:
 * `strip()`, `split(sep)`, `split(sep, 1)`, `split()`, `splitlines()`,
 * `int(text)`, `str(number)` and `isdigit()`, over `string` (= seq<char>).
 */
module Text {

  import opened Wrappers

  /** Python's `str.isspace()` for a single character. */
  predicate IsSpace(c: char)
  {
    || c == ' ' || ('\t' <= c <= '\r') || ('\U{1C}' <= c <= '\U{1F}')
    || c == '\U{85}' || c == '\U{A0}' || c == '\U{1680}' || ('\U{2000}' <= c <= '\U{200A}')
    || c == '\U{2028}' || c == '\U{2029}' || c == '\U{202F}' || c == '\U{205F}' || c == '\U{3000}'
  }

  /** The characters at which `str.splitlines()` breaks a line. */
  predicate IsLineBreak(c: char)
  {
    || c == '\n' || c == '\r' || c == '\U{B}' || c == '\U{C}' || ('\U{1C}' <= c <= '\U{1E}')
    || c == '\U{85}' || c == '\U{2028}' || c == '\U{2029}'
  }

  predicate IsDigit(c: char)
  {
    '0' <= c <= '9'
  }

  function DigitValue(c: char): (d: nat)
    requires IsDigit(c)
    ensures d < 10
  {
    c as int - '0' as int
  }

  function DigitChar(d: nat): (c: char)
    requires d < 10
    ensures IsDigit(c) && DigitValue(c) == d
  {
    ('0' as int + d) as char
  }

  predicate AllDigits(s: string)
  {
    forall i | 0 <= i < |s| :: IsDigit(s[i])
  }

  /** Python's `str.isdigit()` restricted to ASCII digits. */
  predicate IsDigitString(s: string)
  {
    s != [] && AllDigits(s)
  }

  // ---------------------------------------------------------------------------
  // strip()

  /** The number of leading whitespace characters. */
  function LeadingSpaces(s: string): (k: nat)
    ensures k <= |s|
    ensures forall i | 0 <= i < k :: IsSpace(s[i])
    ensures k == |s| || !IsSpace(s[k])
  {
    if s != [] && IsSpace(s[0]) then 1 + LeadingSpaces(s[1..]) else 0
  }

  /** The length of `s` once its trailing whitespace is removed. */
  function TrimmedLength(s: string): (k: nat)
    ensures k <= |s|
    ensures forall i | k <= i < |s| :: IsSpace(s[i])
    ensures k == 0 || !IsSpace(s[k - 1])
  {
    if s != [] && IsSpace(s[|s| - 1]) then TrimmedLength(s[..|s| - 1]) else |s|
  }

  /** Python's `s.strip()`. */
  function Strip(s: string): (r: string)
    ensures r == [] || (!IsSpace(r[0]) && !IsSpace(r[|r| - 1]))
    ensures |r| <= |s|
  {
    var t := s[LeadingSpaces(s)..];
    t[..TrimmedLength(t)]
  }

  /** A string without whitespace at either end is its own strip. */
  lemma StripUnpadded(s: string)
    requires s == [] || (!IsSpace(s[0]) && !IsSpace(s[|s| - 1]))
    ensures Strip(s) == s
  {
  }

  /** `Strip` removes exactly the surrounding whitespace: what it drops is whitespace. */
  lemma {:induction false} StripIsInfix(s: string)
    ensures exists i, j | 0 <= i <= j <= |s| :: Strip(s) == s[i..j]
                          && (forall k | 0 <= k < i :: IsSpace(s[k]))
                          && (forall k | j <= k < |s| :: IsSpace(s[k]))
  {
    var i := LeadingSpaces(s);
    var t := s[i..];
    var j := i + TrimmedLength(t);
    assert Strip(s) == s[i..j];
    assert forall k | j <= k < |s| :: IsSpace(s[k]) by {
      forall k | j <= k < |s| ensures IsSpace(s[k]) {
        assert s[k] == t[k - i];
      }
    }
  }

  // ---------------------------------------------------------------------------
  // split(sep), split(sep, 1), split(), splitlines()

  /** The index of the first `c` in `s`, or `|s|` when there is none. */
  function Find(s: string, c: char): (k: nat)
    ensures k <= |s|
    ensures c !in s[..k]
    ensures k < |s| ==> s[k] == c
  {
    if s == [] then 0 else if s[0] == c then 0 else 1 + Find(s[1..], c)
  }

  /** Python's `s.split(sep)` for a one-character separator. */
  function Split(s: string, sep: char): (r: seq<string>)
    ensures |r| >= 1
    ensures forall i | 0 <= i < |r| :: sep !in r[i]
    decreases |s|
  {
    var k := Find(s, sep);
    if k == |s| then [s] else [s[..k]] + Split(s[k + 1..], sep)
  }

  /** Python's `sep.join(parts)`. */
  function Join(parts: seq<string>, sep: char): string
  {
    if parts == [] then []
    else if |parts| == 1 then parts[0]
    else parts[0] + [sep] + Join(parts[1..], sep)
  }

  /** Joining the fields of a split gives back the original text. */
  lemma {:induction false} JoinSplit(s: string, sep: char)
    ensures Join(Split(s, sep), sep) == s
    decreases |s|
  {
    var k := Find(s, sep);
    if k < |s| {
      JoinSplit(s[k + 1..], sep);
      assert s == s[..k] + [sep] + s[k + 1..];
    }
  }

  /** Splitting a join of separator-free fields gives back the fields. */
  lemma {:induction false} SplitJoin(parts: seq<string>, sep: char)
    requires parts != []
    requires forall i | 0 <= i < |parts| :: sep !in parts[i]
    ensures Split(Join(parts, sep), sep) == parts
  {
    if |parts| > 1 {
      var s := Join(parts, sep);
      assert s == parts[0] + [sep] + Join(parts[1..], sep);
      assert Find(s, sep) == |parts[0]| by { FindAfterFree(parts[0], sep, Join(parts[1..], sep)); }
      assert s[..|parts[0]|] == parts[0];
      assert s[|parts[0]| + 1..] == Join(parts[1..], sep);
      SplitJoin(parts[1..], sep);
      assert Split(s, sep) == [parts[0]] + parts[1..];
    } else {
      assert Find(parts[0], sep) == |parts[0]|;
    }
  }

  /** Joining one more field appends a separator and the field. */
  lemma {:induction false} JoinSnoc(parts: seq<string>, x: string, sep: char)
    requires parts != []
    ensures Join(parts + [x], sep) == Join(parts, sep) + [sep] + x
  {
    if |parts| > 1 {
      assert (parts + [x])[1..] == parts[1..] + [x];
      JoinSnoc(parts[1..], x, sep);
    }
  }

  /** Splitting separator-free fields joined and followed by a separator and more text. */
  lemma {:induction false} SplitJoinThen(parts: seq<string>, sep: char, rest: string)
    requires parts != []
    requires forall i | 0 <= i < |parts| :: sep !in parts[i]
    ensures Split(Join(parts, sep) + [sep] + rest, sep) == parts + Split(rest, sep)
  {
    var first := parts[0];
    assert sep !in first;
    if |parts| == 1 {
      SplitField(first, sep, rest);
      assert Join(parts, sep) == first;
      assert parts == [first];
    } else {
      var others := parts[1..];
      assert forall i | 0 <= i < |others| :: sep !in others[i] by {
        forall i | 0 <= i < |others| ensures sep !in others[i] {
          assert others[i] == parts[i + 1];
        }
      }
      var tail := Join(others, sep) + [sep] + rest;
      var after := Split(rest, sep);
      JoinFirst(parts, sep, rest);
      SplitField(first, sep, tail);
      SplitJoinThen(others, sep, rest);
      assert Split(tail, sep) == others + after;
      assert parts == [first] + others;
      ConcatAssoc([first], others, after);
    }
  }

  lemma ConcatAssoc<T>(a: seq<T>, b: seq<T>, c: seq<T>)
    ensures a + (b + c) == a + b + c
  {
  }

  lemma JoinFirst(parts: seq<string>, sep: char, rest: string)
    requires |parts| > 1
    ensures Join(parts, sep) + [sep] + rest == parts[0] + [sep] + (Join(parts[1..], sep) + [sep] + rest)
  {
  }

  /** A separator-free field, a separator and more text split into the field and the splits of the text. */
  lemma SplitField(field: string, sep: char, rest: string)
    requires sep !in field
    ensures Split(field + [sep] + rest, sep) == [field] + Split(rest, sep)
  {
    var s := field + [sep] + rest;
    FindAfterFree(field, sep, rest);
    assert s[..|field|] == field;
    assert s[|field| + 1..] == rest;
  }

  lemma {:induction false} FindAfterFree(a: string, c: char, b: string)
    requires c !in a
    ensures Find(a + [c] + b, c) == |a|
  {
    if a != [] {
      assert (a + [c] + b)[1..] == a[1..] + [c] + b;
      FindAfterFree(a[1..], c, b);
    }
  }

  /** Python's `s.split(sep, 1)`: one field when `sep` is absent, otherwise the text around its first occurrence. */
  function SplitOnce(s: string, sep: char): (r: seq<string>)
    ensures |r| == 1 <==> sep !in s
    ensures |r| == 1 ==> r[0] == s
    ensures |r| != 1 ==> |r| == 2 && sep !in r[0] && s == r[0] + [sep] + r[1]
  {
    var k := Find(s, sep);
    if k == |s| then
      assert s[..k] == s;
      [s]
    else
      assert s == s[..k] + [sep] + s[k + 1..];
      [s[..k], s[k + 1..]]
  }

  /** The index of the first whitespace character, or `|s|`. */
  function FindSpace(s: string): (k: nat)
    ensures k <= |s|
    ensures forall i | 0 <= i < k :: !IsSpace(s[i])
    ensures k < |s| ==> IsSpace(s[k])
  {
    if s == [] then 0 else if IsSpace(s[0]) then 0 else 1 + FindSpace(s[1..])
  }

  /** A non-empty run of non-whitespace characters. */
  predicate IsWord(w: string)
  {
    w != [] && forall i | 0 <= i < |w| :: !IsSpace(w[i])
  }

  /** Python's `s.split()` with no argument: the maximal runs of non-whitespace. */
  function Words(s: string): (r: seq<string>)
    ensures forall i | 0 <= i < |r| :: IsWord(r[i])
    decreases |s|
  {
    var t := s[LeadingSpaces(s)..];
    if t == [] then []
    else
      var k := FindSpace(t);
      [t[..k]] + Words(t[k..])
  }

  /** The index of the first line break, or `|s|`. */
  function FindLineBreak(s: string): (k: nat)
    ensures k <= |s|
    ensures forall i | 0 <= i < k :: !IsLineBreak(s[i])
    ensures k < |s| ==> IsLineBreak(s[k])
  {
    if s == [] then 0 else if IsLineBreak(s[0]) then 0 else 1 + FindLineBreak(s[1..])
  }

  /** Python's `s.splitlines()`: "\r\n" is one break, and a final break does not open an empty line. */
  function SplitLines(s: string): (r: seq<string>)
    ensures forall i | 0 <= i < |r| :: forall j | 0 <= j < |r[i]| :: !IsLineBreak(r[i][j])
    ensures s == [] <==> r == []
    decreases |s|
  {
    if s == [] then []
    else
      var k := FindLineBreak(s);
      if k == |s| then [s]
      else
        var next := if s[k] == '\r' && k + 1 < |s| && s[k + 1] == '\n' then k + 2 else k + 1;
        [s[..k]] + SplitLines(s[next..])
  }

  /** `data.strip().split('\n')`, the line splitting every solver starts with. */
  function Lines(data: string): (r: seq<string>)
    ensures |r| >= 1
  {
    Split(Strip(data), '\n')
  }

  // ---------------------------------------------------------------------------
  // int(text) and str(number)

  /** Digits with single underscores between them, the body `int()` accepts ("1_000"). */
  predicate IsNumeral(t: string)
  {
    && t != []
    && IsDigit(t[0])
    && forall i | 0 <= i < |t| :: IsDigit(t[i]) || (t[i] == '_' && i + 1 < |t| && IsDigit(t[i + 1]))
  }

  /** The value of the digits of `t`, read in base ten and skipping everything else. */
  function NumeralValue(t: string): nat
  {
    if t == [] then 0
    else
      var c := t[|t| - 1];
      if IsDigit(c) then NumeralValue(t[..|t| - 1]) * 10 + DigitValue(c) else NumeralValue(t[..|t| - 1])
  }

  /** Python's `int(text)` in base ten: optional surrounding whitespace, an optional sign, a numeral. */
  function ParseInt(s: string): (r: Option<int>)
    ensures r.Some? <==> var t := Strip(s);
                         IsNumeral(t) || (t != [] && (t[0] == '+' || t[0] == '-') && IsNumeral(t[1..]))
    ensures r.Some? && !IsNumeral(Strip(s)) && Strip(s)[0] == '-' ==> r.value <= 0
    ensures r.Some? && (IsNumeral(Strip(s)) || Strip(s)[0] == '+') ==> r.value >= 0
  {
    var t := Strip(s);
    if t != [] && (t[0] == '+' || t[0] == '-') then
      if IsNumeral(t[1..]) then
        var v: int := NumeralValue(t[1..]);
        Some(if t[0] == '-' then -v else v)
      else None
    else if IsNumeral(t) then Some(NumeralValue(t))
    else None
  }

  /** A string of ASCII digits is read as the number it spells. */
  lemma ParseDigits(s: string)
    requires IsDigitString(s)
    ensures ParseInt(s) == Some(NumeralValue(s))
  {
    StripUnpadded(s);
  }

  /** A text without '-' that `int` accepts stands for a number that is not negative. */
  lemma ParseIntNoMinus(s: string)
    requires '-' !in s && ParseInt(s).Some?
    ensures ParseInt(s).value >= 0
  {
    StripIsInfix(s);
    var i, j :| 0 <= i <= j <= |s| && Strip(s) == s[i..j];
    assert Strip(s)[0] == s[i];
  }

  /** Python's `str(n)` for a non-negative `n`: decimal digits without leading zeros. */
  function NatToString(n: nat): (r: string)
    ensures IsDigitString(r)
    ensures |r| > 1 ==> r[0] != '0'
    ensures NumeralValue(r) == n
  {
    if n < 10 then [DigitChar(n)]
    else
      var r := NatToString(n / 10) + [DigitChar(n % 10)];
      assert r[..|r| - 1] == NatToString(n / 10);
      r
  }

  /** Python's `str(n)`. */
  function IntToString(n: int): (r: string)
    ensures r != []
    ensures n >= 0 ==> IsDigitString(r)
    ensures n < 0 ==> r[0] == '-' && IsDigitString(r[1..])
  {
    if n < 0 then "-" + NatToString(-n) else NatToString(n)
  }

  /** A run of ASCII digits is a numeral. */
  lemma DigitsNumeral(t: string)
    requires IsDigitString(t)
    ensures IsNumeral(t)
  {
  }

  /** `int(str(n)) == n`. */
  lemma IntRoundTrip(n: int)
    ensures ParseInt(IntToString(n)) == Some(n)
  {
    var s := IntToString(n);
    if n < 0 {
      var digits := NatToString(-n);
      assert s == "-" + digits && s[1..] == digits;
      assert !IsSpace(s[0]) && !IsSpace(s[|s| - 1]);
      StripUnpadded(s);
      DigitsNumeral(digits);
      assert !IsNumeral(s);
    } else {
      ParseDigits(s);
    }
  }
}
