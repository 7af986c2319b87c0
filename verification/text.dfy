/** String operations of the JavaScript runtime that the application relies on:
    `startsWith`, `includes`, `trim`, ASCII `toLowerCase`, `split` and `join`
    on a one-character separator, and decimal rendering of integers. */
module Text {

  /** `s.startsWith(p)` */
  predicate StartsWith(s: string, p: string) {
    |p| <= |s| && s[..|p|] == p
  }

  /** `s.includes(q)`: `q` occurs in `s` at some offset; the empty string occurs everywhere. */
  predicate Includes(s: string, q: string)
    decreases |s|
  {
    StartsWith(s, q) || (|s| > 0 && Includes(s[1..], q))
  }

  /** An occurrence at offset `k` is an occurrence. */
  lemma {:induction false} IncludesAt(s: string, k: nat, q: string)
    requires k <= |s| && StartsWith(s[k..], q)
    ensures Includes(s, q)
    decreases k
  {
    if k > 0 {
      assert s[1..][k - 1..] == s[k..];
      IncludesAt(s[1..], k - 1, q);
    }
  }

  /** An occurrence has an offset. */
  lemma {:induction false} IncludesOffset(s: string, q: string) returns (k: nat)
    requires Includes(s, q)
    ensures k <= |s| && StartsWith(s[k..], q)
    decreases |s|
  {
    if StartsWith(s, q) {
      k := 0;
    } else {
      var j := IncludesOffset(s[1..], q);
      assert s[1..][j..] == s[j + 1..];
      k := j + 1;
    }
  }

  /** What occurs in `t` occurs in `a + t + b`. */
  lemma IncludesWithin(a: string, t: string, b: string, q: string)
    requires Includes(t, q)
    ensures Includes(a + t + b, q)
  {
    var j := IncludesOffset(t, q);
    var s := a + t + b;
    assert s[|a| + j..][..|q|] == t[j..][..|q|];
    IncludesAt(s, |a| + j, q);
  }

  /** Every part occurs in `parts.join(d)`. */
  lemma {:induction false} JoinIncludesPart(parts: seq<string>, d: string, k: nat)
    requires k < |parts|
    ensures Includes(Join(parts, d), parts[k])
  {
    if |parts| == 1 || k == 0 {
      var rest := Join(parts, d)[|parts[0]|..];
      assert Join(parts, d) == parts[0] + rest;
      assert StartsWith(parts[0] + rest, parts[0]) by { assert (parts[0] + rest)[..|parts[0]|] == parts[0]; }
      IncludesAt(Join(parts, d), 0, parts[0]);
    } else {
      JoinIncludesPart(parts[1..], d, k - 1);
      IncludesWithin(parts[0] + d, Join(parts[1..], d), "", parts[k]);
      assert parts[0] + d + Join(parts[1..], d) + "" == Join(parts, d);
    }
  }

  /** The characters `String.prototype.trim` removes: ECMAScript WhiteSpace and LineTerminator. */
  predicate IsSpace(c: char) {
    || c == ' ' || c == '\t' || c == '\n' || c == '\r'
    || c == '\U{B}' || c == '\U{C}' || c == '\U{A0}' || c == '\U{1680}'
    || ('\U{2000}' <= c <= '\U{200A}')
    || c == '\U{2028}' || c == '\U{2029}' || c == '\U{202F}' || c == '\U{205F}'
    || c == '\U{3000}' || c == '\U{FEFF}'
  }

  /** Every character is white space (so `s.trim()` is the empty, falsy, string). */
  predicate Blank(s: string) {
    forall i :: 0 <= i < |s| ==> IsSpace(s[i])
  }

  /** Drops the leading white space of `s`. */
  function TrimStart(s: string): (r: string)
    ensures |r| <= |s| && r == s[|s| - |r|..]
    ensures forall i :: 0 <= i < |s| - |r| ==> IsSpace(s[i])
    ensures r == [] || !IsSpace(r[0])
  {
    if |s| > 0 && IsSpace(s[0]) then TrimStart(s[1..]) else s
  }

  /** Drops the trailing white space of `s`. */
  function TrimEnd(s: string): (r: string)
    ensures |r| <= |s| && r == s[..|r|]
    ensures forall i :: |r| <= i < |s| ==> IsSpace(s[i])
    ensures r == [] || !IsSpace(r[|r| - 1])
  {
    if |s| > 0 && IsSpace(s[|s| - 1]) then TrimEnd(s[..|s| - 1]) else s
  }

  /** `r` is `s` with white space removed at both ends and nowhere else. */
  predicate SliceBetweenBlanks(r: string, s: string) {
    exists i, j :: 0 <= i <= j <= |s| && r == s[i..j] && Blank(s[..i]) && Blank(s[j..])
  }

  /** `s.trim()` */
  function Trim(s: string): (r: string)
    ensures r == [] <==> Blank(s)
    ensures r == [] || (!IsSpace(r[0]) && !IsSpace(r[|r| - 1]))
    ensures |r| <= |s|
    ensures SliceBetweenBlanks(r, s)
  {
    TrimBothEnds(s);
    TrimEnd(TrimStart(s))
  }

  /** Trimming both ends cuts a slice out of `s` with only white space on either side. */
  lemma TrimBothEnds(s: string)
    ensures SliceBetweenBlanks(TrimEnd(TrimStart(s)), s)
  {
    TrimSlices(s, TrimStart(s), TrimEnd(TrimStart(s)));
  }

  /** A prefix `r` of a suffix `a` of `s`, with white space cut off on both sides, is such a slice. */
  lemma TrimSlices(s: string, a: string, r: string)
    requires |a| <= |s| && a == s[|s| - |a|..]
    requires forall i :: 0 <= i < |s| - |a| ==> IsSpace(s[i])
    requires |r| <= |a| && r == a[..|r|]
    requires forall i :: |r| <= i < |a| ==> IsSpace(a[i])
    ensures SliceBetweenBlanks(r, s)
  {
    var i, j := |s| - |a|, |s| - |a| + |r|;
    assert Blank(s[..i]) by {
      forall k | 0 <= k < i ensures IsSpace(s[..i][k]) {
        assert s[..i][k] == s[k];
      }
    }
    assert s[j..] == a[|r|..];
    assert Blank(s[j..]) by {
      forall k | 0 <= k < |s| - j ensures IsSpace(s[j..][k]) {
        assert s[j..][k] == a[|r| + k];
      }
    }
    assert r == s[i..j];
    Infix(s, r, i, j);
  }

  lemma Infix(s: string, r: string, i: nat, j: nat)
    requires i <= j <= |s| && r == s[i..j] && Blank(s[..i]) && Blank(s[j..])
    ensures SliceBetweenBlanks(r, s)
  {
  }

  function LowerChar(c: char): char {
    if 'A' <= c <= 'Z' then (c as int + 32) as char else c
  }

  function UpperChar(c: char): char {
    if 'a' <= c <= 'z' then (c as int - 32) as char else c
  }

  /** Nothing for `trim` to remove: no white space at either end. */
  predicate Trimmed(s: string) {
    s == [] || (!IsSpace(s[0]) && !IsSpace(s[|s| - 1]))
  }

  lemma TrimStartOf(pad: string, c: string)
    requires forall i :: 0 <= i < |pad| ==> IsSpace(pad[i])
    requires c == [] || !IsSpace(c[0])
    ensures TrimStart(pad + c) == c
  {
    var s := pad + c;
    var r := TrimStart(s);
    assert r == s[|pad|..];
  }

  lemma TrimEndOf(c: string)
    requires c == [] || !IsSpace(c[|c| - 1])
    ensures TrimEnd(c) == c
  {
    assert !(|c| > 0 && IsSpace(c[|c| - 1]));
  }

  /** `trim` removes exactly the white space around a trimmed core. */
  lemma TrimAround(pad: string, c: string)
    requires forall i :: 0 <= i < |pad| ==> IsSpace(pad[i])
    requires Trimmed(c)
    ensures Trim(pad + c) == c
  {
    TrimStartOf(pad, c);
    TrimEndOf(c);
  }

  /** `s.toLowerCase()` restricted to the ASCII letters. */
  function Lower(s: string): (r: string)
    ensures |r| == |s|
    ensures forall i :: 0 <= i < |s| ==> r[i] == LowerChar(s[i])
  {
    if |s| == 0 then [] else [LowerChar(s[0])] + Lower(s[1..])
  }

  /** Position of the first occurrence of `c` in `s`. */
  function IndexOf(s: string, c: char): (i: nat)
    requires c in s
    ensures i < |s| && s[i] == c && c !in s[..i]
  {
    if s[0] == c then 0
    else
      var j := IndexOf(s[1..], c);
      assert s[..j + 1] == [s[0]] + s[1..][..j];
      j + 1
  }

  /** `parts.join(d)` */
  function Join(parts: seq<string>, d: string): string
  {
    if |parts| == 0 then []
    else if |parts| == 1 then parts[0]
    else parts[0] + d + Join(parts[1..], d)
  }

  /** `s.split(sep)` for a one-character separator: the separator-free pieces
      between consecutive separators, in order; joining them back gives `s`. */
  function Split(s: string, sep: char): (parts: seq<string>)
    ensures |parts| >= 1
    ensures forall k :: 0 <= k < |parts| ==> sep !in parts[k]
    ensures Join(parts, [sep]) == s
    decreases |s|
  {
    if sep !in s then [s]
    else
      var i := IndexOf(s, sep);
      var rest := Split(s[i + 1..], sep);
      var parts := [s[..i]] + rest;
      assert parts[1..] == rest;
      assert s == s[..i] + [sep] + s[i + 1..];
      parts
  }

  /** Splitting undoes joining whenever no piece contains the separator. */
  lemma {:induction false} SplitJoin(parts: seq<string>, sep: char)
    requires |parts| >= 1
    requires forall k :: 0 <= k < |parts| ==> sep !in parts[k]
    ensures Split(Join(parts, [sep]), sep) == parts
    decreases |parts|
  {
    if |parts| > 1 {
      var p := parts[0];
      var tail := Join(parts[1..], [sep]);
      var s := Join(parts, [sep]);
      assert s == p + [sep] + tail;
      assert s[|p|] == sep;
      var i := IndexOf(s, sep);
      assert s[..i] == p;
      assert s[i + 1..] == tail;
      SplitJoin(parts[1..], sep);
      assert Split(s, sep) == [p] + Split(tail, sep);
    } else {
      assert Join(parts, [sep]) == parts[0];
    }
  }

  /** The decimal digit for `d`. */
  function DigitChar(d: int): (c: char)
    requires 0 <= d < 10
    ensures '0' <= c <= '9' && c as int - '0' as int == d
  {
    ('0' as int + d) as char
  }

  /** Decimal rendering of a natural number, as `String(n)` gives it. */
  function NatToString(n: nat): (r: string)
    ensures |r| >= 1
    ensures forall i :: 0 <= i < |r| ==> '0' <= r[i] <= '9'
    ensures |r| > 1 ==> r[0] != '0'
    decreases n
  {
    if n < 10 then [DigitChar(n)] else NatToString(n / 10) + [DigitChar(n % 10)]
  }

  /** Decimal rendering of an integer, as `String(n)` or `${n}` gives it. */
  function IntToString(n: int): string {
    if n < 0 then "-" + NatToString(-n) else NatToString(n)
  }

  /** Value of a string of decimal digits. */
  function DigitsValue(s: string): nat
    requires forall i :: 0 <= i < |s| ==> '0' <= s[i] <= '9'
  {
    if |s| == 0 then 0 else 10 * DigitsValue(s[..|s| - 1]) + (s[|s| - 1] as int - '0' as int)
  }

  /** Rendering a natural number and reading the digits back gives the number. */
  lemma {:induction false} NatToStringRoundTrip(n: nat)
    ensures DigitsValue(NatToString(n)) == n
    decreases n
  {
    if n >= 10 {
      var r := NatToString(n);
      NatToStringRoundTrip(n / 10);
      assert r[..|r| - 1] == NatToString(n / 10);
    }
  }
}
