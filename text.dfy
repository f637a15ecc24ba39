/** The Python string operations the chatbot relies on: `str.lower`, `str.strip`,
    the `in` substring test, `str.join` and decimal formatting of integers. */
module Text {

  /** Python's `str.isspace` for a single character. */
  predicate IsSpace(c: char) {
    || c == ' '
    || ('\t' <= c <= '\r')
    || ('\U{1c}' <= c <= '\U{1f}')
    || c == '\U{85}' || c == '\U{a0}' || c == '\U{1680}'
    || ('\U{2000}' <= c <= '\U{200a}')
    || c == '\U{2028}' || c == '\U{2029}' || c == '\U{202f}' || c == '\U{205f}' || c == '\U{3000}'
  }

  predicate AllSpace(s: string) {
    forall i :: 0 <= i < |s| ==> IsSpace(s[i])
  }

  /** Lower-casing of one character (ASCII letters only). */
  function LowerChar(c: char): (r: char)
    ensures 'A' <= c <= 'Z' ==> 'a' <= r <= 'z'
    ensures !('A' <= c <= 'Z') ==> r == c
  {
    if 'A' <= c <= 'Z' then (c as int + 32) as char else c
  }

  /** `s.lower()`. */
  function Lower(s: string): (r: string)
    ensures |r| == |s|
    ensures forall i :: 0 <= i < |s| ==> r[i] == LowerChar(s[i])
  {
    if s == [] then [] else [LowerChar(s[0])] + Lower(s[1..])
  }

  lemma {:induction false} LowerAppend(a: string, b: string)
    ensures Lower(a + b) == Lower(a) + Lower(b)
  {
    forall i | 0 <= i < |a + b| ensures Lower(a + b)[i] == (Lower(a) + Lower(b))[i] {
      if i < |a| {
        assert (a + b)[i] == a[i];
      } else {
        assert (a + b)[i] == b[i - |a|];
      }
    }
  }

  /** The lower-cased text starts with `p` when its first characters lower-case to `p`. */
  lemma {:induction false} LowerPrefix(a: string, p: string)
    requires |p| <= |a| && forall i :: 0 <= i < |p| ==> LowerChar(a[i]) == p[i]
    ensures Lower(a)[..|p|] == p
  {
    var l := Lower(a);
    assert forall i :: 0 <= i < |p| ==> l[..|p|][i] == p[i];
  }

  /** A string that `Lower` leaves as it is: it has no upper-case ASCII letter. */
  predicate IsLower(s: string) {
    forall i :: 0 <= i < |s| ==> !('A' <= s[i] <= 'Z')
  }

  /** The number of whitespace characters `s` starts with. */
  function LeadingSpaces(s: string): (n: nat)
    ensures n <= |s|
    ensures forall i :: 0 <= i < n ==> IsSpace(s[i])
    ensures n < |s| ==> !IsSpace(s[n])
  {
    if s != [] && IsSpace(s[0]) then 1 + LeadingSpaces(s[1..]) else 0
  }

  /** The number of whitespace characters `s` ends with. */
  function TrailingSpaces(s: string): (n: nat)
    ensures n <= |s|
    ensures forall i :: |s| - n <= i < |s| ==> IsSpace(s[i])
    ensures n < |s| ==> !IsSpace(s[|s| - n - 1])
  {
    if s != [] && IsSpace(s[|s| - 1]) then 1 + TrailingSpaces(s[..|s| - 1]) else 0
  }

  lemma {:induction false} LeadingSpacesUnique(s: string, n: nat)
    requires n <= |s|
    requires forall i :: 0 <= i < n ==> IsSpace(s[i])
    requires n < |s| ==> !IsSpace(s[n])
    ensures LeadingSpaces(s) == n
  {
  }

  lemma {:induction false} TrailingSpacesUnique(s: string, n: nat)
    requires n <= |s|
    requires forall i :: |s| - n <= i < |s| ==> IsSpace(s[i])
    requires n < |s| ==> !IsSpace(s[|s| - n - 1])
    ensures TrailingSpaces(s) == n
  {
  }

  /** `s` is `r` with `k` whitespace characters before it and only whitespace after it. */
  predicate PaddedBy(s: string, r: string, k: nat) {
    && k + |r| <= |s|
    && r == s[k..k + |r|]
    && (forall i :: 0 <= i < k ==> IsSpace(s[i]))
    && (forall i :: k + |r| <= i < |s| ==> IsSpace(s[i]))
  }

  /** Neither end of `r` is whitespace. */
  predicate Trimmed(r: string) {
    r == [] || (!IsSpace(r[0]) && !IsSpace(r[|r| - 1]))
  }

  /** `s.strip()`: `s` without its leading and trailing whitespace. */
  function Strip(s: string): (r: string)
    ensures Trimmed(r)
    ensures exists k :: PaddedBy(s, r, k)
  {
    var k := LeadingSpaces(s);
    var l := s[k..];
    var r := l[..|l| - TrailingSpaces(l)];
    assert PaddedBy(s, r, k) by {
      forall i | k + |r| <= i < |s| ensures IsSpace(s[i]) {
        assert s[i] == l[i - k];
      }
    }
    r
  }

  /** `strip` is determined by its contract: whitespace-free ends, whitespace-only padding. */
  lemma {:induction false} StripUnique(s: string, r: string, k: nat)
    requires PaddedBy(s, r, k) && Trimmed(r)
    ensures Strip(s) == r
  {
    if r != [] {
      LeadingSpacesUnique(s, k);
      var l := s[k..];
      TrailingSpacesUnique(l, |l| - |r|);
    } else {
      LeadingSpacesUnique(s, |s|);
    }
  }

  /** `strip` yields the empty string exactly for whitespace-only input. */
  lemma {:induction false} StripEmpty(s: string)
    ensures Strip(s) == [] <==> AllSpace(s)
  {
    var r := Strip(s);
    var k: nat :| PaddedBy(s, r, k);
    if r != [] {
      assert s[k] == r[0];
    } else if AllSpace(s) {
      StripUnique(s, [], 0);
    }
  }

  /** Whitespace around a string does not change what `strip` returns. */
  lemma {:induction false} StripPadded(ws1: string, t: string, ws2: string)
    requires AllSpace(ws1) && AllSpace(ws2)
    ensures Strip(ws1 + t + ws2) == Strip(t)
  {
    var r := Strip(t);
    var k: nat :| PaddedBy(t, r, k);
    var s := ws1 + t + ws2;
    assert s[|ws1| + k..|ws1| + k + |r|] == t[k..k + |r|];
    forall i | 0 <= i < |ws1| + k ensures IsSpace(s[i]) {
      if i >= |ws1| { assert s[i] == t[i - |ws1|]; }
    }
    forall i | |ws1| + k + |r| <= i < |s| ensures IsSpace(s[i]) {
      if i < |ws1| + |t| { assert s[i] == t[i - |ws1|]; } else { assert s[i] == ws2[i - |ws1| - |t|]; }
    }
    assert PaddedBy(s, r, |ws1| + k);
    StripUnique(s, r, |ws1| + k);
  }

  /** Whitespace around trimmed text is exactly what `strip` removes. */
  lemma {:induction false} StripTrimmed(ws1: string, t: string, ws2: string)
    requires AllSpace(ws1) && AllSpace(ws2) && Trimmed(t)
    ensures Strip(ws1 + t + ws2) == t
  {
    assert t[0..|t|] == t;
    StripUnique(t, t, 0);
    StripPadded(ws1, t, ws2);
  }

  /** When `x` starts with a non-space and its `m`-th character is a non-space, `strip`
      only removes characters after the first `m`. */
  lemma {:induction false} StripKeepsHead(x: string, m: nat)
    requires 0 < m <= |x| && !IsSpace(x[0]) && !IsSpace(x[m - 1])
    ensures m <= |Strip(x)| && Strip(x) == x[..|Strip(x)|]
  {
    var r := Strip(x);
    var k: nat :| PaddedBy(x, r, k);
  }

  /** `sub in s` for two Python strings. */
  predicate Contains(s: string, sub: string) {
    exists i :: 0 <= i <= |s| - |sub| && OccursAt(s, sub, i)
  }

  /** `sub` occurs in `s` starting at index `i`. */
  predicate OccursAt(s: string, sub: string, i: nat) {
    i + |sub| <= |s| && s[i..i + |sub|] == sub
  }

  /** Text around a substring keeps it a substring. */
  lemma {:induction false} ContainsExtend(s: string, sub: string, a: string, b: string)
    requires Contains(s, sub)
    ensures Contains(a + s + b, sub)
  {
    var i :| 0 <= i <= |s| - |sub| && OccursAt(s, sub, i);
    var t := a + s + b;
    assert t[|a| + i..|a| + i + |sub|] == s[i..i + |sub|];
    assert OccursAt(t, sub, |a| + i);
  }

  /** `sep.join(parts)`. */
  function Join(sep: string, parts: seq<string>): string {
    if |parts| == 0 then ""
    else if |parts| == 1 then parts[0]
    else parts[0] + sep + Join(sep, parts[1..])
  }

  /** Joining one more part appends the separator and that part. */
  lemma {:induction false} JoinSnoc(sep: string, parts: seq<string>, last: string)
    requires |parts| > 0
    ensures Join(sep, parts + [last]) == Join(sep, parts) + sep + last
  {
    if |parts| > 1 {
      assert (parts + [last])[1..] == parts[1..] + [last];
      JoinSnoc(sep, parts[1..], last);
    } else {
      assert (parts + [last])[1..] == [last];
    }
  }

  /** Every part occurs, in full, in the joined string. */
  lemma {:induction false} JoinContainsPart(sep: string, parts: seq<string>, i: nat)
    requires i < |parts|
    ensures Contains(Join(sep, parts), parts[i])
  {
    if i == 0 {
      if |parts| == 1 {
        assert OccursAt(Join(sep, parts), parts[0], 0);
      } else {
        var rest := sep + Join(sep, parts[1..]);
        assert Join(sep, parts) == parts[0] + rest;
        assert (parts[0] + rest)[0..|parts[0]|] == parts[0];
        assert OccursAt(Join(sep, parts), parts[0], 0);
      }
    } else {
      JoinContainsPart(sep, parts[1..], i - 1);
      ContainsExtend(Join(sep, parts[1..]), parts[i], parts[0] + sep, "");
      assert parts[0] + sep + Join(sep, parts[1..]) + "" == Join(sep, parts);
    }
  }

  predicate IsDigit(c: char) {
    '0' <= c <= '9'
  }

  predicate AllDigits(s: string) {
    forall i :: 0 <= i < |s| ==> IsDigit(s[i])
  }

  function DigitChar(d: nat): (c: char)
    requires d < 10
    ensures IsDigit(c) && c as int - '0' as int == d
  {
    ('0' as int + d) as char
  }

  /** The number a string of decimal digits denotes. */
  function DecimalValue(s: string): nat
    requires AllDigits(s)
  {
    if s == [] then 0 else DecimalValue(s[..|s| - 1]) * 10 + (s[|s| - 1] as int - '0' as int)
  }

  /** `str(n)` for a natural number: its decimal digits without leading zeros. */
  function NatToString(n: nat): (s: string)
    ensures |s| >= 1 && AllDigits(s)
    ensures s[0] == '0' ==> s == "0"
    decreases n
  {
    if n < 10 then [DigitChar(n)] else NatToString(n / 10) + [DigitChar(n % 10)]
  }

  /** Reading back the digits `str(n)` gives `n`. */
  lemma {:induction false} DecimalRoundTrip(n: nat)
    ensures DecimalValue(NatToString(n)) == n
  {
    if n >= 10 {
      DecimalRoundTrip(n / 10);
      var s := NatToString(n);
      assert s[..|s| - 1] == NatToString(n / 10);
    }
  }
}
