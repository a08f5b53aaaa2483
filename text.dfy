/**
 * String helpers shared by the model: decimal rendering and parsing of integers,
 * JavaScript's `trim`, ASCII case mapping and `split` on one separator character.
 */
module Text {
  import opened Wrappers

  predicate IsDigit(c: char) {
    '0' <= c <= '9'
  }

  predicate AllDigits(s: string) {
    forall i :: 0 <= i < |s| ==> IsDigit(s[i])
  }

  function DigitChar(d: nat): (c: char)
    requires d < 10
    ensures IsDigit(c)
  {
    ('0' as int + d) as char
  }

  function DigitValue(c: char): (d: nat)
    requires IsDigit(c)
    ensures d < 10 && DigitChar(d) == c
  {
    c as int - '0' as int
  }

  /** The decimal digits of `n`, without leading zeros (`String(n)` for a natural number). */
  function NatToString(n: nat): (s: string)
    ensures 1 <= |s| && AllDigits(s)
    ensures s[0] == '0' ==> n == 0
    decreases n
  {
    if n < 10 then [DigitChar(n)] else NatToString(n / 10) + [DigitChar(n % 10)]
  }

  /** The value of a string of decimal digits. */
  function ParseDigits(s: string): nat
    requires AllDigits(s)
  {
    if s == [] then 0 else ParseDigits(s[..|s| - 1]) * 10 + DigitValue(s[|s| - 1])
  }

  lemma {:induction false} ParseNatToString(n: nat)
    ensures ParseDigits(NatToString(n)) == n
    decreases n
  {
    if n >= 10 {
      var s := NatToString(n);
      assert s[..|s| - 1] == NatToString(n / 10);
      ParseNatToString(n / 10);
    }
  }

  /** `String(i)` for an integer: a minus sign before the digits of a negative number. */
  function IntToString(i: int): (s: string)
    ensures 1 <= |s|
    ensures i >= 0 ==> s == NatToString(i)
    ensures i < 0 ==> s == "-" + NatToString(-i)
  {
    if i >= 0 then NatToString(i) else "-" + NatToString(-i)
  }

  /** An optional sign and at least one decimal digit; `None` for anything else. */
  function ParseInt(s: string): (r: Option<int>)
    ensures r.Some? ==> |s| >= 1
  {
    if |s| >= 2 && (s[0] == '-' || s[0] == '+') && AllDigits(s[1..]) then
      var v: int := ParseDigits(s[1..]);
      Some(if s[0] == '-' then -v else v)
    else if |s| >= 1 && AllDigits(s) then
      var v: int := ParseDigits(s);
      Some(v)
    else None
  }

  /** `IntToString` loses nothing: its text reads back as the same integer. */
  lemma ParseIntToString(i: int)
    ensures ParseInt(IntToString(i)) == Some(i)
  {
    if i >= 0 {
      var d := NatToString(i);
      ParseNatToString(i);
      assert IsDigit(d[0]);
      assert d[0] != '-' && d[0] != '+';
      assert ParseInt(d) == Some(ParseDigits(d) as int);
    } else {
      var d := NatToString(-i);
      ParseNatToString(-i);
      var s := "-" + d;
      assert s[1..] == d && s[0] == '-';
      assert ParseInt(s) == Some(-(ParseDigits(d) as int));
    }
  }

  /** JavaScript truthiness of an optional text: absent and `""` are both false. */
  predicate Truthy(s: Option<string>) {
    s.Some? && s.value != ""
  }

  /**
   * The characters JavaScript's `trim` and the regular-expression class `\s` treat as white
   * space: the ECMAScript WhiteSpace set (tab, vertical tab, form feed, the byte-order mark
   * and every space separator of Unicode) and its LineTerminator set.
   */
  predicate IsWhitespace(c: char) {
    c == ' ' || c == '\t' || c == '\n' || c == '\r' || c == '\U{000B}' || c == '\U{000C}'
    || c == '\U{00A0}' || c == '\U{FEFF}' || c == '\U{1680}' || ('\U{2000}' <= c <= '\U{200A}')
    || c == '\U{2028}' || c == '\U{2029}' || c == '\U{202F}' || c == '\U{205F}' || c == '\U{3000}'
  }

  predicate AllWhitespace(s: string) {
    forall i :: 0 <= i < |s| ==> IsWhitespace(s[i])
  }

  function TrimStart(s: string): string {
    if s != [] && IsWhitespace(s[0]) then TrimStart(s[1..]) else s
  }

  function TrimEnd(s: string): string {
    if s != [] && IsWhitespace(s[|s| - 1]) then TrimEnd(s[..|s| - 1]) else s
  }

  /** JavaScript `String.prototype.trim`. */
  function Trim(s: string): string {
    TrimEnd(TrimStart(s))
  }

  /** `TrimStart` drops a white-space prefix and keeps the rest, which does not start with white space. */
  lemma {:induction false} TrimStartShape(s: string)
    ensures |TrimStart(s)| <= |s| && TrimStart(s) == s[|s| - |TrimStart(s)|..]
    ensures AllWhitespace(s[..|s| - |TrimStart(s)|])
    ensures TrimStart(s) == [] || !IsWhitespace(TrimStart(s)[0])
  {
    if s != [] && IsWhitespace(s[0]) {
      TrimStartShape(s[1..]);
      var r := TrimStart(s);
      assert s[..|s| - |r|] == [s[0]] + s[1..][..|s| - 1 - |r|];
    }
  }

  /** `TrimEnd` drops a white-space suffix and keeps the rest, which does not end with white space. */
  lemma {:induction false} TrimEndShape(s: string)
    ensures |TrimEnd(s)| <= |s| && TrimEnd(s) == s[..|TrimEnd(s)|]
    ensures AllWhitespace(s[|TrimEnd(s)|..])
    ensures TrimEnd(s) == [] || !IsWhitespace(TrimEnd(s)[|TrimEnd(s)| - 1])
  {
    if s != [] && IsWhitespace(s[|s| - 1]) {
      TrimEndShape(s[..|s| - 1]);
      var r := TrimEnd(s);
      assert s[|r|..] == s[..|s| - 1][|r|..] + [s[|s| - 1]];
    }
  }

  /** The trimmed text neither starts nor ends with white space. */
  lemma TrimEnds(s: string)
    ensures Trim(s) == [] || (!IsWhitespace(Trim(s)[0]) && !IsWhitespace(Trim(s)[|Trim(s)| - 1]))
  {
    TrimStartShape(s);
    TrimEndShape(TrimStart(s));
  }

  /** What `Trim` removes is white space at both ends, and what it keeps is the slice between. */
  lemma TrimSlice(s: string)
    ensures exists i, j :: 0 <= i <= j <= |s| && Trim(s) == s[i..j] && AllWhitespace(s[..i]) && AllWhitespace(s[j..])
  {
    TrimStartShape(s);
    var t := TrimStart(s);
    TrimEndShape(t);
    var u := TrimEnd(t);
    assert u == s[|s| - |t|..|s| - |t| + |u|];
    assert s[|s| - |t| + |u|..] == t[|u|..];
  }

  lemma TrimStartFixed(s: string)
    requires s == [] || !IsWhitespace(s[0])
    ensures TrimStart(s) == s
  {
  }

  lemma TrimEndFixed(s: string)
    requires s == [] || !IsWhitespace(s[|s| - 1])
    ensures TrimEnd(s) == s
  {
  }

  /** Trimming twice is trimming once. */
  lemma TrimIdempotent(s: string)
    ensures Trim(Trim(s)) == Trim(s)
  {
    var r := Trim(s);
    TrimEnds(s);
    TrimStartFixed(r);
    TrimEndFixed(r);
  }

  /** A string that is blank after trimming consists of white space only. */
  lemma TrimEmptyIffBlank(s: string)
    ensures Trim(s) == [] <==> AllWhitespace(s)
  {
    TrimSlice(s);
    if AllWhitespace(s) {
      BlankTrimsToEmpty(s);
    }
  }

  lemma {:induction false} BlankTrimsToEmpty(s: string)
    requires AllWhitespace(s)
    ensures TrimStart(s) == []
  {
    if s != [] {
      BlankTrimsToEmpty(s[1..]);
    }
  }

  function ToLowerChar(c: char): char {
    if 'A' <= c <= 'Z' then (c as int + 32) as char else c
  }

  function ToUpperChar(c: char): char {
    if 'a' <= c <= 'z' then (c as int - 32) as char else c
  }

  /** `toLowerCase`, for the ASCII letters. */
  function ToLower(s: string): (r: string)
    ensures |r| == |s| && forall i :: 0 <= i < |s| ==> r[i] == ToLowerChar(s[i])
  {
    if s == [] then [] else [ToLowerChar(s[0])] + ToLower(s[1..])
  }

  /** `toUpperCase`, for the ASCII letters. */
  function ToUpper(s: string): (r: string)
    ensures |r| == |s| && forall i :: 0 <= i < |s| ==> r[i] == ToUpperChar(s[i])
  {
    if s == [] then [] else [ToUpperChar(s[0])] + ToUpper(s[1..])
  }

  lemma ToLowerIdempotent(s: string)
    ensures ToLower(ToLower(s)) == ToLower(s)
  {
  }

  /** The index of the first occurrence of `c` in `s`, or `|s|` when there is none. */
  function IndexOf(s: string, c: char): (i: nat)
    ensures i <= |s| && c !in s[..i] && (i < |s| ==> s[i] == c)
  {
    if s == [] then 0 else if s[0] == c then 0 else 1 + IndexOf(s[1..], c)
  }

  /** JavaScript `s.split(c)` for a one-character separator: always at least one part, separators dropped. */
  function Split(s: string, c: char): (parts: seq<string>)
    ensures |parts| >= 1
    ensures forall k :: 0 <= k < |parts| ==> c !in parts[k]
    decreases |s|
  {
    var i := IndexOf(s, c);
    if i == |s| then [s] else [s[..i]] + Split(s[i + 1..], c)
  }

  /** The parts joined back with the separator between each two. */
  function Join(parts: seq<string>, c: char): string
    requires |parts| >= 1
  {
    if |parts| == 1 then parts[0] else parts[0] + [c] + Join(parts[1..], c)
  }

  /** Splitting loses nothing: joining the parts gives the original string back. */
  lemma {:induction false} JoinSplit(s: string, c: char)
    ensures Join(Split(s, c), c) == s
    decreases |s|
  {
    var i := IndexOf(s, c);
    if i < |s| {
      var rest := Split(s[i + 1..], c);
      JoinSplit(s[i + 1..], c);
      assert Split(s, c) == [s[..i]] + rest;
      assert Join([s[..i]] + rest, c) == s[..i] + [c] + Join(rest, c) by {
        assert ([s[..i]] + rest)[1..] == rest;
      }
      assert s == s[..i] + [c] + s[i + 1..];
    }
  }

  /** A string splits into a single part iff the separator does not occur in it. */
  lemma SplitSingle(s: string, c: char)
    ensures |Split(s, c)| == 1 <==> c !in s
  {
    var i := IndexOf(s, c);
    if i == |s| {
      assert s[..i] == s;
    } else {
      assert s[i] == c;
    }
  }

  predicate StartsWith(s: string, prefix: string) {
    |prefix| <= |s| && s[..|prefix|] == prefix
  }

  /** The regular-expression replacement `s.replace(/^[^\s]+\s/, '')`: drops a leading non-blank run and the white-space character after it. */
  function StripFirstToken(s: string): (r: string)
    ensures |r| <= |s| && r == s[|s| - |r|..]
    ensures r == s <==> s == [] || IsWhitespace(s[0]) || forall k :: 0 <= k < |s| ==> !IsWhitespace(s[k])
    ensures r != s ==> var n := |s| - |r| - 1;
      0 < n && IsWhitespace(s[n]) && forall k :: 0 <= k < n ==> !IsWhitespace(s[k])
  {
    var n := FirstWhitespace(s);
    if 0 < n < |s| then s[n + 1..] else s
  }

  /** The index of the first white-space character of `s`, or `|s|`. */
  function FirstWhitespace(s: string): (n: nat)
    ensures n <= |s| && (n < |s| ==> IsWhitespace(s[n]))
    ensures forall k :: 0 <= k < n ==> !IsWhitespace(s[k])
  {
    if s == [] then 0 else if IsWhitespace(s[0]) then 0 else 1 + FirstWhitespace(s[1..])
  }

  /**
   * The order in which the browser's database compares string keys, a proper prefix
   * first, taken character by character. A character here is a Unicode code point; the
   * browser compares UTF-16 code units, which orders a character beyond U+FFFF before the
   * characters U+E000 to U+FFFF rather than after them.
   */
  predicate StrLess(a: string, b: string)
    decreases |a|
  {
    |b| > 0 && (|a| == 0 || a[0] < b[0] || (a[0] == b[0] && StrLess(a[1..], b[1..])))
  }

  lemma {:induction false} StrLessIrreflexive(a: string)
    ensures !StrLess(a, a)
    decreases |a|
  {
    if |a| > 0 {
      StrLessIrreflexive(a[1..]);
    }
  }

  lemma {:induction false} StrLessTransitive(a: string, b: string, c: string)
    requires StrLess(a, b) && StrLess(b, c)
    ensures StrLess(a, c)
    decreases |a|
  {
    if |a| > 0 && a[0] == b[0] && b[0] == c[0] {
      StrLessTransitive(a[1..], b[1..], c[1..]);
    }
  }

  lemma {:induction false} StrLessTotal(a: string, b: string)
    requires a != b
    ensures StrLess(a, b) || StrLess(b, a)
    decreases |a|
  {
    if |a| > 0 && |b| > 0 && a[0] == b[0] {
      assert a == [a[0]] + a[1..] && b == [b[0]] + b[1..];
      StrLessTotal(a[1..], b[1..]);
    }
  }

  /** A non-empty set of strings has an element. */
  lemma NonEmptyHasElement(s: set<string>)
    requires s != {}
    ensures exists x :: x in s
  {
    if forall x :: x !in s {
      assert false;
    }
  }

  /** The least string of a non-empty set in key order. */
  method MinString(ks: set<string>) returns (m: string)
    requires ks != {}
    ensures m in ks && forall k :: k in ks && k != m ==> StrLess(m, k)
  {
    var rest := ks;
    NonEmptyHasElement(rest);
    m :| m in rest;
    rest := rest - {m};
    while rest != {}
      invariant m in ks && rest <= ks
      invariant forall k :: k in ks - rest && k != m ==> StrLess(m, k)
      decreases |rest|
    {
      NonEmptyHasElement(rest);
      var k :| k in rest;
      if StrLess(k, m) {
        forall j | j in ks - rest && j != k
          ensures StrLess(k, j)
        {
          if j != m {
            StrLessTransitive(k, m, j);
          }
        }
        m := k;
      } else if k != m {
        StrLessTotal(k, m);
      }
      rest := rest - {k};
    }
  }

  /** The strings of a finite set in ascending key order. */
  method SortedKeys(ks: set<string>) returns (r: seq<string>)
    ensures forall k :: k in r <==> k in ks
    ensures forall i, j :: 0 <= i < j < |r| ==> StrLess(r[i], r[j])
  {
    var rest := ks;
    r := [];
    while rest != {}
      invariant rest <= ks
      invariant forall k :: k in ks <==> k in r || k in rest
      invariant forall i, j :: 0 <= i < j < |r| ==> StrLess(r[i], r[j])
      invariant forall i, k :: 0 <= i < |r| && k in rest ==> StrLess(r[i], k)
      decreases |rest|
    {
      var m := MinString(rest);
      r := r + [m];
      rest := rest - {m};
    }
  }

  /** `(t / 10).toFixed(1)` for a value `t` in tenths: the units, a point and the tenths digit. */
  function Fixed1(t: int): (s: string)
    ensures |s| >= 3 && s[|s| - 2] == '.' && IsDigit(s[|s| - 1])
  {
    var a := if t < 0 then -t else t;
    (if t < 0 then "-" else "") + NatToString(a / 10) + "." + [DigitChar(a % 10)]
  }

  /** Reads back a value written by `Fixed1`; `None` for anything else. */
  function ParseFixed1(s: string): Option<int> {
    if |s| >= 1 && s[0] == '-' then
      var u := ParseUnsignedFixed1(s[1..]);
      if u.Some? then var v: int := u.value; Some(-v) else None
    else
      var u := ParseUnsignedFixed1(s);
      if u.Some? then var v: int := u.value; Some(v) else None
  }

  function ParseUnsignedFixed1(s: string): Option<nat> {
    if |s| >= 3 && s[|s| - 2] == '.' && IsDigit(s[|s| - 1]) && AllDigits(s[..|s| - 2]) then
      Some(ParseDigits(s[..|s| - 2]) * 10 + DigitValue(s[|s| - 1]))
    else None
  }

  lemma UnsignedFixed1Of(n: string, d: nat)
    requires |n| >= 1 && AllDigits(n) && d < 10
    ensures ParseUnsignedFixed1(n + "." + [DigitChar(d)]) == Some(ParseDigits(n) * 10 + d)
  {
    var u := n + "." + [DigitChar(d)];
    assert u[..|u| - 2] == n;
    assert u[|u| - 2] == '.' && u[|u| - 1] == DigitChar(d);
    DigitRoundTrip(d);
  }

  lemma UnsignedFixed1RoundTrip(a: nat)
    ensures ParseUnsignedFixed1(NatToString(a / 10) + "." + [DigitChar(a % 10)]) == Some(a)
  {
    UnsignedFixed1Of(NatToString(a / 10), a % 10);
    ParseNatToString(a / 10);
    DivMod10(a);
  }

  lemma DigitRoundTrip(d: nat)
    requires d < 10
    ensures DigitValue(DigitChar(d)) == d
  {
  }

  lemma DivMod10(a: nat)
    ensures (a / 10) * 10 + a % 10 == a
  {
  }

  /** `Fixed1` loses nothing: its text reads back as the same number of tenths. */
  lemma Fixed1RoundTrip(t: int)
    ensures ParseFixed1(Fixed1(t)) == Some(t)
  {
    var a := if t < 0 then -t else t;
    var u := NatToString(a / 10) + "." + [DigitChar(a % 10)];
    UnsignedFixed1RoundTrip(a);
    if t < 0 {
      assert Fixed1(t) == "-" + u;
      assert ("-" + u)[1..] == u;
    } else {
      assert Fixed1(t) == u;
      assert u[0] == NatToString(a / 10)[0];
      assert IsDigit(u[0]);
    }
  }

  /** `String(t / 10)` for a value in tenths: no decimal part when it is a whole number. */
  function TenthsToString(t: int): (s: string)
    ensures t % 10 == 0 ==> s == IntToString(t / 10)
    ensures t % 10 != 0 ==> s == Fixed1(t)
  {
    if t % 10 == 0 then IntToString(t / 10) else Fixed1(t)
  }
}
