/**
 * The parts of java.lang.String and java.lang.Integer that the plugin relies on,
 * written out so that their edge cases (empty input, trailing separators, sign
 * characters, 32-bit range) are explicit.
 */
module JavaText {
  import opened Wrappers

  const INT_MIN: int := -0x8000_0000
  const INT_MAX: int := 0x7fff_ffff

  /** The values a Java `int` can hold. */
  predicate InInt32(n: int) {
    INT_MIN <= n <= INT_MAX
  }

  // ----- searching -----

  /** `s.indexOf(c)` where c occurs in s. */
  function IndexOf(s: string, c: char): (i: nat)
    requires c in s
    ensures i < |s| && s[i] == c && c !in s[..i]
  {
    if s[0] == c then 0
    else
      var j := IndexOf(s[1..], c);
      assert s[..j + 1] == [s[0]] + s[1..][..j];
      j + 1
  }

  /** `s.startsWith(t)`. */
  predicate StartsWith(s: string, t: string) {
    |t| <= |s| && s[..|t|] == t
  }

  /** `s.contains(t)`. */
  predicate Contains(s: string, t: string)
    decreases |s|
  {
    StartsWith(s, t) || (|s| > 0 && Contains(s[1..], t))
  }

  // ----- splitting and joining -----

  /** All fields of s between occurrences of c, empty ones included. */
  function Fields(s: string, c: char): (r: seq<string>)
    ensures |r| >= 1
    ensures forall k :: 0 <= k < |r| ==> c !in r[k]
    decreases |s|
  {
    if c !in s then [s]
    else
      var i := IndexOf(s, c);
      [s[..i]] + Fields(s[i + 1..], c)
  }

  /** `String.join(sep, parts)`. */
  function Join(parts: seq<string>, sep: string): string
    decreases |parts|
  {
    if |parts| == 0 then ""
    else if |parts| == 1 then parts[0]
    else parts[0] + sep + Join(parts[1..], sep)
  }

  /** Drops the empty strings at the end of xs (what `split` does with limit 0). */
  function StripTrailingEmpty(xs: seq<string>): (r: seq<string>)
    ensures |r| <= |xs| && r == xs[..|r|]
    ensures |r| > 0 ==> r[|r| - 1] != ""
    ensures forall k :: |r| <= k < |xs| ==> xs[k] == ""
    decreases |xs|
  {
    if |xs| > 0 && xs[|xs| - 1] == "" then StripTrailingEmpty(xs[..|xs| - 1]) else xs
  }

  /**
   * `s.split(c)` for a character c that is not a regular-expression metacharacter:
   * an input without c gives the one-element array [s] (so "" gives [""]);
   * otherwise all fields, leading empty ones kept and trailing empty ones removed.
   */
  function Split(s: string, c: char): (r: seq<string>)
    ensures forall k :: 0 <= k < |r| ==> c !in r[k]
  {
    if c !in s then [s] else StripTrailingEmpty(Fields(s, c))
  }

  /** A split with two or more entries ends in a non-empty one. */
  lemma SplitLastNonEmpty(s: string, c: char)
    ensures var r := Split(s, c); |r| >= 2 ==> r[|r| - 1] != ""
  {
    if c in s {
      var r := StripTrailingEmpty(Fields(s, c));
      assert Split(s, c) == r;
    }
  }

  /**
   * `s.split(c, n)` with a positive limit n: at most n - 1 splits, the last entry
   * holds the rest of the input, and no trailing empty entry is removed.
   */
  function SplitLimit(s: string, c: char, n: nat): (r: seq<string>)
    requires n >= 1
    ensures 1 <= |r| <= n
    decreases n
  {
    if n == 1 || c !in s then [s]
    else
      var i := IndexOf(s, c);
      [s[..i]] + SplitLimit(s[i + 1..], c, n - 1)
  }

  /** `s.replaceAll(pat, rep)` for a pattern without metacharacters: non-overlapping, left to right. */
  function ReplaceAll(s: string, pat: string, rep: string): string
    requires |pat| > 0
    decreases |s|
  {
    if |s| < |pat| then s
    else if s[..|pat|] == pat then rep + ReplaceAll(s[|pat|..], pat, rep)
    else [s[0]] + ReplaceAll(s[1..], pat, rep)
  }

  lemma IndexOfConcat(p: string, c: char, q: string)
    requires c !in p
    ensures c in p + [c] + q && IndexOf(p + [c] + q, c) == |p|
  {
    var s := p + [c] + q;
    assert s[|p|] == c;
    assert s[..|p|] == p;
  }

  /** Joining the fields of s with c gives s back. */
  lemma {:induction false} JoinFields(s: string, c: char)
    ensures Join(Fields(s, c), [c]) == s
    decreases |s|
  {
    if c in s {
      var i := IndexOf(s, c);
      var rest := s[i + 1..];
      JoinFields(rest, c);
      var fr := Fields(rest, c);
      assert Fields(s, c) == [s[..i]] + fr;
      assert ([s[..i]] + fr)[1..] == fr;
      assert s == s[..i] + [c] + rest;
    }
  }

  /** Splitting a join of separator-free parts into fields gives the parts back. */
  lemma {:induction false} FieldsJoin(parts: seq<string>, c: char)
    requires |parts| >= 1
    requires forall k :: 0 <= k < |parts| ==> c !in parts[k]
    ensures Fields(Join(parts, [c]), c) == parts
    decreases |parts|
  {
    if |parts| > 1 {
      var tail := Join(parts[1..], [c]);
      assert Join(parts, [c]) == parts[0] + [c] + tail;
      FieldsAtSeparator(parts[0], c, tail);
      FieldsJoin(parts[1..], c);
      assert parts == [parts[0]] + parts[1..];
    }
  }

  /** Regrouping a text built from a head, a separator and a rest. */
  lemma ConcatRegroup(x: string, a: string, sep: string, t: string)
    ensures x + (a + sep + t) == x + a + sep + t
  {
  }

  lemma ConcatRegroup5(a: string, b: string, c: string, d: string, e: string)
    ensures a + b + c + d + e == a + b + (c + d + e)
  {
  }

  /** The two halves of a concatenation are its prefix and suffix. */
  lemma ConcatHalves(p: string, q: string)
    ensures (p + q)[..|p|] == p && (p + q)[|p|..] == q
  {
  }

  /** The first field ends at the first separator. */
  lemma FieldsAtSeparator(p: string, c: char, q: string)
    requires c !in p
    ensures Fields(p + [c] + q, c) == [p] + Fields(q, c)
  {
    var s := p + [c] + q;
    IndexOfConcat(p, c, q);
    assert s[..|p|] == p;
    assert s[|p| + 1..] == q;
  }

  /** A join contains the separator exactly when it has two or more parts. */
  lemma {:induction false} JoinContainsSeparator(parts: seq<string>, c: char)
    requires forall k :: 0 <= k < |parts| ==> c !in parts[k]
    ensures c in Join(parts, [c]) <==> |parts| >= 2
    decreases |parts|
  {
    if |parts| >= 2 {
      var s := parts[0] + [c] + Join(parts[1..], [c]);
      assert s[|parts[0]|] == c;
    } else if |parts| == 0 {
    }
  }

  /**
   * `Join(parts, c).split(c) == parts` when no part holds c and the last part is
   * non-empty (or there is a single part).
   */
  lemma SplitJoin(parts: seq<string>, c: char)
    requires |parts| >= 1
    requires forall k :: 0 <= k < |parts| ==> c !in parts[k]
    requires |parts| == 1 || parts[|parts| - 1] != ""
    ensures Split(Join(parts, [c]), c) == parts
  {
    JoinContainsSeparator(parts, c);
    if |parts| >= 2 {
      FieldsJoin(parts, c);
    }
  }

  /** Appending a part to a non-empty list appends the separator and the part to the join. */
  lemma {:induction false} JoinSnoc(parts: seq<string>, x: string, sep: string)
    requires |parts| >= 1
    ensures Join(parts + [x], sep) == Join(parts, sep) + sep + x
    decreases |parts|
  {
    if |parts| > 1 {
      assert (parts + [x])[1..] == parts[1..] + [x];
      JoinSnoc(parts[1..], x, sep);
    }
  }

  /** A join begins with its first part. */
  lemma JoinHead(parts: seq<string>, sep: string)
    requires |parts| >= 1 && parts[0] != ""
    ensures |Join(parts, sep)| >= 1 && Join(parts, sep)[0] == parts[0][0]
  {
  }

  /** t occurring at index i of s makes s contain t. */
  lemma {:induction false} ContainsAt(s: string, t: string, i: nat)
    requires i + |t| <= |s| && s[i..i + |t|] == t
    ensures Contains(s, t)
    decreases i
  {
    if i > 0 {
      assert s[1..][i - 1..i - 1 + |t|] == t;
      ContainsAt(s[1..], t, i - 1);
    }
  }

  // ----- integers and their decimal text -----

  predicate IsDigit(ch: char) {
    '0' <= ch <= '9'
  }

  predicate AllDigits(s: string) {
    forall k :: 0 <= k < |s| ==> IsDigit(s[k])
  }

  function DigitChar(d: int): (ch: char)
    requires 0 <= d <= 9
    ensures IsDigit(ch)
  {
    ('0' as int + d) as char
  }

  /** Decimal digits of n, without leading zeros. */
  function NatToString(n: nat): (r: string)
    ensures |r| >= 1 && AllDigits(r)
    decreases n
  {
    if n < 10 then [DigitChar(n)] else NatToString(n / 10) + [DigitChar(n % 10)]
  }

  /** `String.valueOf(int)`: an optional minus sign followed by the digits. */
  function IntToString(n: int): (r: string)
    ensures |r| >= 1
    ensures forall k :: 0 <= k < |r| ==> IsDigit(r[k]) || (k == 0 && r[k] == '-')
    ensures (r[0] == '-') <==> n < 0
  {
    if n < 0 then "-" + NatToString(-n) else NatToString(n)
  }

  /** The value of a string of decimal digits. */
  function DigitsValue(s: string): nat
    requires AllDigits(s)
    decreases |s|
  {
    if |s| == 0 then 0 else DigitsValue(s[..|s| - 1]) * 10 + (s[|s| - 1] as int - '0' as int)
  }

  /**
   * `Integer.parseInt(s)`: an optional '+' or '-', then one or more ASCII digits,
   * with a value a Java int can hold; anything else is a NumberFormatException (None).
   */
  function ParseInt(s: string): (r: Option<int>)
    ensures r.Some? ==> InInt32(r.value)
    ensures r.Some? ==> |s| >= 1 && (IsDigit(s[0]) || s[0] == '-' || s[0] == '+')
    ensures r.Some? ==> forall k :: 1 <= k < |s| ==> IsDigit(s[k])
  {
    if |s| == 0 then None
    else
      var signed := s[0] == '-' || s[0] == '+';
      var body := if signed then s[1..] else s;
      if |body| == 0 || !AllDigits(body) then None
      else
        var v := if s[0] == '-' then -(DigitsValue(body) as int) else DigitsValue(body) as int;
        if InInt32(v) then Some(v) else None
  }

  lemma {:induction false} NatToStringValue(n: nat)
    ensures DigitsValue(NatToString(n)) == n
    decreases n
  {
    var s := NatToString(n);
    if n >= 10 {
      NatToStringValue(n / 10);
      assert s[..|s| - 1] == NatToString(n / 10);
    }
  }

  /** Parsing the text of a Java int gives the int back. */
  lemma ParseIntToString(n: int)
    requires InInt32(n)
    ensures ParseInt(IntToString(n)) == Some(n)
  {
    if n < 0 {
      ParseNegativeText(-n);
    } else {
      ParseDigitsText(n);
    }
  }

  lemma ParseDigitsText(m: nat)
    requires m <= INT_MAX
    ensures ParseInt(NatToString(m)) == Some(m)
  {
    var s := NatToString(m);
    assert IsDigit(s[0]);
    NatToStringValue(m);
  }

  lemma ParseNegativeText(m: nat)
    requires 0 < m <= -INT_MIN
    ensures ParseInt("-" + NatToString(m)) == Some(-(m as int))
  {
    var body := NatToString(m);
    var s := "-" + body;
    assert s[0] == '-' && s[1..] == body;
    NatToStringValue(m);
  }

  /** Distinct ints have distinct texts. */
  lemma IntToStringInjective(a: int, b: int)
    requires IntToString(a) == IntToString(b)
    ensures a == b
  {
    var t := IntToString(a);
    if a < 0 {
      assert b < 0;
      NatTextInjective(-a, -b, t[1..]);
    } else {
      assert b >= 0;
      NatTextInjective(a, b, t);
    }
  }

  lemma NatTextInjective(a: nat, b: nat, t: string)
    requires NatToString(a) == t && NatToString(b) == t
    ensures a == b
  {
    NatToStringValue(a);
    NatToStringValue(b);
  }

  // ----- whitespace and case -----

  function TrimLeft(s: string): string
    decreases |s|
  {
    if |s| > 0 && s[0] <= ' ' then TrimLeft(s[1..]) else s
  }

  function TrimRight(s: string): string
    decreases |s|
  {
    if |s| > 0 && s[|s| - 1] <= ' ' then TrimRight(s[..|s| - 1]) else s
  }

  /** `s.trim()`: removes leading and trailing characters up to U+0020. */
  function Trim(s: string): string {
    TrimRight(TrimLeft(s))
  }

  /** `s.trim().isEmpty()`. */
  predicate IsBlank(s: string) {
    Trim(s) == ""
  }

  lemma {:induction false} TrimLeftBlank(s: string)
    ensures TrimLeft(s) == "" <==> forall k :: 0 <= k < |s| ==> s[k] <= ' '
    decreases |s|
  {
    if |s| > 0 && s[0] <= ' ' {
      TrimLeftBlank(s[1..]);
      assert forall k :: 1 <= k < |s| ==> s[k] == s[1..][k - 1];
    }
  }

  lemma {:induction false} TrimRightNonEmpty(s: string)
    requires |s| > 0 && s[0] > ' '
    ensures TrimRight(s) != ""
    decreases |s|
  {
    if s[|s| - 1] <= ' ' {
      assert |s| > 1;
      TrimRightNonEmpty(s[..|s| - 1]);
    }
  }

  /** A string is blank exactly when it holds nothing but characters up to U+0020. */
  lemma BlankIffAllSpace(s: string)
    ensures IsBlank(s) <==> forall k :: 0 <= k < |s| ==> s[k] <= ' '
  {
    TrimLeftBlank(s);
    var t := TrimLeft(s);
    if t != "" {
      assert t[0] > ' ' by { TrimLeftStopsAtNonSpace(s); }
      TrimRightNonEmpty(t);
    }
  }

  lemma {:induction false} TrimLeftStopsAtNonSpace(s: string)
    ensures TrimLeft(s) != "" ==> TrimLeft(s)[0] > ' '
    decreases |s|
  {
    if |s| > 0 && s[0] <= ' ' {
      TrimLeftStopsAtNonSpace(s[1..]);
    }
  }

  /** ASCII lower-casing (Java folds all of Unicode; only ASCII letters are folded here). */
  function LowerAscii(ch: char): char {
    if 'A' <= ch <= 'Z' then (ch as int + 32) as char else ch
  }

  /** `a.equalsIgnoreCase(b)` on ASCII letters. */
  predicate EqualsIgnoreCase(a: string, b: string) {
    |a| == |b| && forall k :: 0 <= k < |a| ==> LowerAscii(a[k]) == LowerAscii(b[k])
  }

  /** `s.repeat(n)`-like helper: n copies of ch. */
  function Repeat(ch: char, n: nat): (r: string)
    ensures |r| == n && forall k :: 0 <= k < n ==> r[k] == ch
  {
    if n == 0 then "" else Repeat(ch, n - 1) + [ch]
  }
}
