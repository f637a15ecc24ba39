/** The chat widget's message formatting: HTML escaping, then `**bold**` and `__italic__`
    markers turned into tags, then line breaks turned into `<br>`. */
module Formatting {
  import opened Wrappers
  import opened Text

  /** The replacement of one character by `escapeHtml`. */
  function EscapeChar(c: char): string {
    match c
    case '&' => "&amp;"
    case '"' => "&quot;"
    case '\'' => "&#39;"
    case '<' => "&lt;"
    case '>' => "&gt;"
    case _ => [c]
  }

  /** The five characters `escapeHtml` replaces. */
  predicate IsSpecial(c: char) {
    c == '&' || c == '"' || c == '\'' || c == '<' || c == '>'
  }

  /** `escapeHtml`: every special character replaced by its entity, all others kept. */
  function EscapeHtml(s: string): (r: string)
    ensures |r| >= |s|
    ensures forall i :: 0 <= i < |r| ==> r[i] != '<' && r[i] != '>' && r[i] != '"' && r[i] != '\''
    ensures (forall i :: 0 <= i < |s| ==> !IsSpecial(s[i])) ==> r == s
  {
    if s == [] then [] else EscapeChar(s[0]) + EscapeHtml(s[1..])
  }

  lemma {:induction false} EscapeAppend(a: string, b: string)
    ensures EscapeHtml(a + b) == EscapeHtml(a) + EscapeHtml(b)
  {
    if a == [] {
      assert a + b == b;
    } else {
      assert (a + b)[0] == a[0];
      assert (a + b)[1..] == a[1..] + b;
      EscapeAppend(a[1..], b);
    }
  }

  /** Decoding of the five entities `escapeHtml` produces; every other character is kept. */
  function Unescape(s: string): string
    decreases |s|
  {
    if s == [] then []
    else if "&amp;" <= s then "&" + Unescape(s[5..])
    else if "&quot;" <= s then "\"" + Unescape(s[6..])
    else if "&#39;" <= s then "'" + Unescape(s[5..])
    else if "&lt;" <= s then "<" + Unescape(s[4..])
    else if "&gt;" <= s then ">" + Unescape(s[4..])
    else [s[0]] + Unescape(s[1..])
  }

  /** Decoding the replacement of one character gives that character back. */
  lemma {:induction false} UnescapeStep(c: char, rest: string)
    ensures Unescape(EscapeChar(c) + rest) == [c] + Unescape(rest)
  {
    var e := EscapeChar(c);
    var s := e + rest;
    assert s[|e|..] == rest;
    if !IsSpecial(c) {
      assert s[0] == c && s[1..] == rest;
    } else if c == '&' {
      assert s[..5] == "&amp;" && s[1] == 'a';
    } else if c == '"' {
      assert s[..6] == "&quot;" && s[1] == 'q';
    } else if c == '\'' {
      assert s[..5] == "&#39;" && s[1] == '#';
    } else if c == '<' {
      assert s[..4] == "&lt;" && s[1] == 'l';
    } else {
      assert s[..4] == "&gt;" && s[1] == 'g';
    }
  }

  /** Escaping loses nothing: decoding the entities gives the original text back. */
  lemma {:induction false} EscapeRoundTrip(s: string)
    ensures Unescape(EscapeHtml(s)) == s
  {
    if s != [] {
      EscapeRoundTrip(s[1..]);
      UnescapeStep(s[0], EscapeHtml(s[1..]));
    }
  }

  /** The characters at which JavaScript's `.` does not match. */
  predicate IsLineTerminator(c: char) {
    c == '\n' || c == '\r' || c == '\U{2028}' || c == '\U{2029}'
  }

  /** No line terminator lies in `s[start..j]`, so `.+` can stretch from `start` to `j`. */
  predicate LineFree(s: string, start: nat, j: nat) {
    forall i :: start <= i < j && i < |s| ==> !IsLineTerminator(s[i])
  }

  /** The lazy search for the closing marker of `(.+?)`: the first `k >= start + 1` at which
      `d` occurs, provided no line terminator lies in `s[start..k]`. */
  function FindClose(s: string, d: string, start: nat, k: nat): (r: Option<nat>)
    requires start < k
    requires forall j :: start <= j < k - 1 && j < |s| ==> !IsLineTerminator(s[j])
    ensures r.Some? ==> k <= r.value && OccursAt(s, d, r.value)
    ensures r.Some? ==> forall j :: start <= j < r.value ==> !IsLineTerminator(s[j])
    ensures r.Some? ==> forall j :: k <= j < r.value ==> !OccursAt(s, d, j)
    // when nothing is found, no marker is reachable from `start` on a single line
    ensures r.None? ==> forall j {:trigger LineFree(s, start, j)} :: k <= j && LineFree(s, start, j) ==> !OccursAt(s, d, j)
    decreases |s| - k
  {
    if k + |d| > |s| || IsLineTerminator(s[k - 1]) then None
    else if OccursAt(s, d, k) then Some(k)
    else FindClose(s, d, start, k + 1)
  }

  /** `s.replace(/DD(.+?)DD/g, open + "$1" + close)` from index `p` on, where `d` is the
      two-character marker `DD`: at each position a match is tried, and after a match the
      scan resumes behind it. */
  function ReplacePairs(s: string, d: string, open: string, close: string, p: nat): string
    requires |d| == 2
    requires p <= |s|
    decreases |s| - p
  {
    if p == |s| then []
    else
      var c := FindClose(s, d, p + 2, p + 3);
      if OccursAt(s, d, p) && c.Some? then
        open + s[p + 2..c.value] + close + ReplacePairs(s, d, open, close, c.value + 2)
      else [s[p]] + ReplacePairs(s, d, open, close, p + 1)
  }

  /** `**…**` to `<strong>…</strong>`; text without `*` is left alone. */
  function Bold(s: string): (r: string)
    ensures NoneFrom(s, '*', 0) ==> r == s
  {
    ReplaceWithoutMarker(s, "**", "<strong>", "</strong>", 0);
    ReplacePairs(s, "**", "<strong>", "</strong>", 0)
  }

  /** `__…__` to `<em>…</em>`; text without `_` is left alone. */
  function Italic(s: string): (r: string)
    ensures NoneFrom(s, '_', 0) ==> r == s
  {
    ReplaceWithoutMarker(s, "__", "<em>", "</em>", 0);
    ReplacePairs(s, "__", "<em>", "</em>", 0)
  }

  /** Every `\n` to `<br>`. */
  function Breaks(s: string): (r: string)
    ensures forall i :: 0 <= i < |r| ==> r[i] != '\n'
    ensures (forall i :: 0 <= i < |s| ==> s[i] != '\n') ==> r == s
  {
    if s == [] then [] else (if s[0] == '\n' then "<br>" else [s[0]]) + Breaks(s[1..])
  }

  lemma {:induction false} BreaksAppend(a: string, b: string)
    ensures Breaks(a + b) == Breaks(a) + Breaks(b)
  {
    if a == [] {
      assert a + b == b;
    } else {
      var c, t := a[0], a[1..];
      assert a == [c] + t;
      assert a + b == [c] + (t + b);
      calc {
        Breaks(a + b);
        { BreaksCons(c, t + b); }
        BreakOf(c) + Breaks(t + b);
        { BreaksAppend(t, b); }
        BreakOf(c) + (Breaks(t) + Breaks(b));
        (BreakOf(c) + Breaks(t)) + Breaks(b);
        { BreaksCons(c, t); }
        Breaks(a) + Breaks(b);
      }
    }
  }

  /** What `Breaks` puts in place of one character. */
  function BreakOf(c: char): string {
    if c == '\n' then "<br>" else [c]
  }

  /** One step of `Breaks`. */
  lemma {:induction false} BreaksCons(c: char, s: string)
    ensures Breaks([c] + s) == BreakOf(c) + Breaks(s)
  {
    assert ([c] + s)[1..] == s;
  }

  /** `formatMessage`. */
  function FormatMessage(text: string): (r: string)
    ensures forall i :: 0 <= i < |r| ==> r[i] != '\n'
  {
    Breaks(Italic(Bold(EscapeHtml(text))))
  }

  // ---------------------------------------------------------------------------------
  // Markup-free text is left alone.

  /** No position of `s` from `p` on holds the character `x`. */
  predicate NoneFrom(s: string, x: char, p: nat) {
    forall j :: p <= j < |s| ==> s[j] != x
  }

  /** Without the marker's character, the text is copied unchanged. */
  lemma {:induction false} ReplaceWithoutMarker(s: string, d: string, open: string, close: string, p: nat)
    requires |d| == 2 && p <= |s|
    ensures NoneFrom(s, d[0], p) ==> ReplacePairs(s, d, open, close, p) == s[p..]
    decreases |s| - p
  {
    if p < |s| && NoneFrom(s, d[0], p) {
      assert !OccursAt(s, d, p) by { assert s[p] != d[0]; }
      ReplaceWithoutMarker(s, d, open, close, p + 1);
      assert s[p..] == [s[p]] + s[p + 1..];
    }
  }

  /** Escaping never introduces `*`, `_` or a line feed. */
  lemma {:induction false} EscapeKeeps(s: string, x: char)
    requires x == '*' || x == '_' || x == '\n'
    requires forall i :: 0 <= i < |s| ==> s[i] != x
    ensures forall i :: 0 <= i < |EscapeHtml(s)| ==> EscapeHtml(s)[i] != x
  {
    if s != [] {
      EscapeKeeps(s[1..], x);
      var e := EscapeChar(s[0]);
      assert forall i :: 0 <= i < |e| ==> e[i] != x;
      assert EscapeHtml(s) == e + EscapeHtml(s[1..]);
    }
  }

  /** Text without `*`, `_` and line feeds is only escaped. */
  lemma {:induction false} PlainTextOnlyEscaped(text: string)
    requires forall i :: 0 <= i < |text| ==> text[i] != '*' && text[i] != '_' && text[i] != '\n'
    ensures FormatMessage(text) == EscapeHtml(text)
  {
    var e := EscapeHtml(text);
    EscapeKeeps(text, '*');
    EscapeKeeps(text, '_');
    EscapeKeeps(text, '\n');
    assert Bold(e) == e;
    assert Italic(e) == e;
  }

  // ---------------------------------------------------------------------------------
  // A marked span is replaced.

  /** A marker pair around a non-empty, single-line text without the marker's character
      becomes the open tag, the text and the close tag. */
  lemma {:induction false} SpanReplaced(d: string, x: string, open: string, close: string)
    requires |d| == 2 && d[0] == d[1]
    requires x != [] && forall i :: 0 <= i < |x| ==> x[i] != d[0] && !IsLineTerminator(x[i])
    ensures ReplacePairs(d + x + d, d, open, close, 0) == open + x + close
  {
    var s := d + x + d;
    var k := 2 + |x|;
    assert OccursAt(s, d, 0) by { assert s[0..2] == d; }
    assert OccursAt(s, d, k) by { assert s[k..k + 2] == d; }
    ClosesAt(s, d, 2, 3, k);
    assert s[2..k] == x;
    assert ReplacePairs(s, d, open, close, k + 2) == [];
  }

  /** The lazy search ends at `k` when the marker occurs there and nowhere before, with no
      line terminator on the way. */
  lemma {:induction false} ClosesAt(s: string, d: string, start: nat, j: nat, k: nat)
    requires |d| == 2 && start < j <= k && OccursAt(s, d, k)
    requires forall i :: start <= i < k ==> !IsLineTerminator(s[i])
    requires forall i :: j <= i < k ==> s[i] != d[0]
    ensures FindClose(s, d, start, j) == Some(k)
    decreases k - j
  {
    if j < k {
      assert !OccursAt(s, d, j) by { assert s[j] != d[0]; }
      ClosesAt(s, d, start, j + 1, k);
    }
  }

  /** `formatMessage("**x**")` is `<strong>x</strong>` for plain single-line `x`. */
  lemma {:induction false} BoldSpan(x: string)
    requires x != []
    requires forall i :: 0 <= i < |x| ==>
      !IsSpecial(x[i]) && x[i] != '*' && x[i] != '_' && !IsLineTerminator(x[i])
    ensures FormatMessage("**" + x + "**") == "<strong>" + x + "</strong>"
  {
    EscapeWrapped("**", x);
    SpanReplaced("**", x, "<strong>", "</strong>");
    PlainWrapped("<strong>", x, "</strong>");
  }

  /** Wrapping escape-free text in `**` needs no escaping. */
  lemma {:induction false} EscapeWrapped(d: string, x: string)
    requires d == "**"
    requires forall i :: 0 <= i < |x| ==> !IsSpecial(x[i])
    ensures EscapeHtml(d + x + d) == d + x + d
  {
    var s := d + x + d;
    forall i | 0 <= i < |s| ensures !IsSpecial(s[i]) {
      if i < 2 { assert s[i] == '*'; }
      else if i < 2 + |x| { assert s[i] == x[i - 2]; }
      else { assert s[i] == '*'; }
    }
  }

  /** Text made of `open`, `x` and `close` without `_` or a line feed passes the italic and
      line-break steps unchanged. */
  lemma {:induction false} PlainWrapped(open: string, x: string, close: string)
    requires open == "<strong>" && close == "</strong>"
    requires forall i :: 0 <= i < |x| ==> x[i] != '_' && x[i] != '\n'
    ensures Breaks(Italic(open + x + close)) == open + x + close
  {
    var b := open + x + close;
    forall i | 0 <= i < |b| ensures b[i] != '_' && b[i] != '\n' {
      if i < |open| { assert b[i] == open[i]; }
      else if i < |open| + |x| { assert b[i] == x[i - |open|]; }
      else { assert b[i] == close[i - |open| - |x|]; }
    }
    assert Italic(b) == b;
  }

  // ---------------------------------------------------------------------------------
  // Only the five tags can appear.

  const Tags: seq<string> := ["<strong>", "</strong>", "<em>", "</em>", "<br>"]

  /** One of the allowed tags starts at index `i`. */
  predicate StartsTag(s: string, i: nat) {
    exists n :: 0 <= n < |Tags| && OccursAt(s, Tags[n], i)
  }

  /** Every `<` of `s` starts an allowed tag. */
  predicate TagsOk(s: string) {
    forall i :: 0 <= i < |s| && s[i] == '<' ==> StartsTag(s, i)
  }

  /** The shape of one tag: it starts with `<`, has no other `<`, and holds no `*`, `_` or
      line feed. */
  lemma {:induction false} TagShape(n: nat)
    requires n < |Tags|
    ensures |Tags[n]| >= 4 && Tags[n][0] == '<'
    ensures forall m :: 0 <= m < |Tags[n]| ==>
      Tags[n][m] != '*' && Tags[n][m] != '_' && Tags[n][m] != '\n' && (m > 0 ==> Tags[n][m] != '<')
  {
  }

  lemma {:induction false} TagIsOk(n: nat)
    requires n < |Tags|
    ensures TagsOk(Tags[n])
  {
    TagShape(n);
    var t := Tags[n];
    forall i | 0 <= i < |t| && t[i] == '<' ensures StartsTag(t, i) {
      assert i == 0;
      assert OccursAt(t, Tags[n], 0) by { assert t[0..|t|] == t; }
    }
  }

  lemma {:induction false} TagsOkAppend(a: string, b: string)
    requires TagsOk(a) && TagsOk(b)
    ensures TagsOk(a + b)
  {
    var s := a + b;
    forall i | 0 <= i < |s| && s[i] == '<' ensures StartsTag(s, i) {
      if i < |a| {
        assert a[i] == '<';
        var n :| 0 <= n < |Tags| && OccursAt(a, Tags[n], i);
        assert s[i..i + |Tags[n]|] == a[i..i + |Tags[n]|];
        assert OccursAt(s, Tags[n], i);
      } else {
        assert b[i - |a|] == '<';
        var n :| 0 <= n < |Tags| && OccursAt(b, Tags[n], i - |a|);
        assert s[i..i + |Tags[n]|] == b[i - |a|..i - |a| + |Tags[n]|];
        assert OccursAt(s, Tags[n], i);
      }
    }
  }

  /** A slice of `s` that ends just before a character no tag holds keeps every tag. */
  lemma {:induction false} TagsOkSlice(s: string, a: nat, b: nat, x: char)
    requires a <= b <= |s| && TagsOk(s)
    requires b < |s| ==> s[b] == x
    requires x == '*' || x == '_' || x == '\n'
    ensures TagsOk(s[a..b])
  {
    var u := s[a..b];
    forall i | 0 <= i < |u| && u[i] == '<' ensures StartsTag(u, i) {
      assert s[a + i] == '<';
      var n :| 0 <= n < |Tags| && OccursAt(s, Tags[n], a + i);
      TagShape(n);
      var t := Tags[n];
      assert s[a + i..a + i + |t|] == t;
      assert u[i..i + |t|] == t by {
        forall m | 0 <= m < |t| ensures u[i + m] == t[m] {
          assert u[i + m] == s[a + i + m];
        }
      }
      assert OccursAt(u, t, i);
    }
  }

  /** Every suffix keeps the property. */
  lemma {:induction false} TagsOkSuffix(s: string, a: nat)
    requires a <= |s| && TagsOk(s)
    ensures TagsOk(s[a..])
  {
    TagsOkSlice(s, a, |s|, '\n');
    assert s[a..|s|] == s[a..];
  }

  /** Text without `<` trivially keeps the property. */
  lemma {:induction false} NoAngleIsOk(s: string)
    requires forall i :: 0 <= i < |s| ==> s[i] != '<'
    ensures TagsOk(s)
  {
  }

  /** The output of a match keeps the property: both tags, the enclosed text, which ends
      before the closing marker, and what follows. */
  lemma {:induction false} SpanKeepsTags(s: string, x: char, open: string, close: string, a: nat, k: nat, rest: string)
    requires a <= k <= |s| && (k < |s| ==> s[k] == x) && (x == '*' || x == '_')
    requires TagsOk(s) && TagsOk(open) && TagsOk(close) && TagsOk(rest)
    ensures TagsOk(open + s[a..k] + close + rest)
  {
    TagsOkSlice(s, a, k, x);
    TagsOkAppend(open, s[a..k]);
    TagsOkAppend(open + s[a..k], close);
    TagsOkAppend(open + s[a..k] + close, rest);
  }

  /** A copied character other than `<` keeps the property. */
  lemma {:induction false} CharKeepsTags(c: char, rest: string)
    requires c != '<' && TagsOk(rest)
    ensures TagsOk([c] + rest)
  {
    NoAngleIsOk([c]);
    TagsOkAppend([c], rest);
  }

  /** A copied tag keeps the property. */
  lemma {:induction false} TagKeepsTags(n: nat, rest: string, whole: string)
    requires n < |Tags| && whole == Tags[n] + rest
    ensures TagsOk(rest) ==> TagsOk(whole)
  {
    if TagsOk(rest) {
      TagIsOk(n);
      TagsOkAppend(Tags[n], rest);
    }
  }

  /** Where the marker does not start, one character is copied. */
  lemma {:induction false} CopyOne(s: string, d: string, open: string, close: string, p: nat)
    requires |d| == 2 && p < |s| && s[p] != d[0]
    ensures ReplacePairs(s, d, open, close, p) == [s[p]] + ReplacePairs(s, d, open, close, p + 1)
  {
    assert !OccursAt(s, d, p) by { assert s[p] != d[0]; }
  }

  /** A tag in the text is copied as it is: no marker can start inside it. */
  lemma {:induction false} CopyTag(s: string, d: string, open: string, close: string, p: nat, t: string)
    requires |d| == 2 && OccursAt(s, t, p) && |t| > 0
    requires forall m :: 0 <= m < |t| ==> t[m] != d[0]
    ensures ReplacePairs(s, d, open, close, p) == t + ReplacePairs(s, d, open, close, p + |t|)
    decreases |t|
  {
    OccursTail(s, t, p);
    var t' := t[1..];
    var rest := ReplacePairs(s, d, open, close, p + |t|);
    assert t == [s[p]] + t';
    if |t| == 1 {
      CopyOne(s, d, open, close, p);
    } else {
      assert forall m :: 0 <= m < |t'| ==> t'[m] == t[m + 1];
      calc {
        ReplacePairs(s, d, open, close, p);
        { CopyOne(s, d, open, close, p); }
        [s[p]] + ReplacePairs(s, d, open, close, p + 1);
        { CopyTag(s, d, open, close, p + 1, t'); }
        [s[p]] + (t' + rest);
        t + rest;
      }
    }
  }

  /** An occurrence of `t` at `p` is its first character followed by an occurrence of
      the rest at `p + 1`. */
  lemma {:induction false} OccursTail(s: string, t: string, p: nat)
    requires OccursAt(s, t, p) && |t| > 0
    ensures p < |s| && s[p] == t[0] && OccursAt(s, t[1..], p + 1)
  {
    assert s[p..p + |t|][0] == s[p];
    assert s[p + 1..p + 1 + |t[1..]|] == t[1..];
  }

  /** A tag starting at `p` in the text is copied whole. */
  lemma {:induction false} CopyTagAt(s: string, d: string, open: string, close: string, p: nat) returns (n: nat)
    requires |d| == 2 && (d[0] == '*' || d[0] == '_') && p < |s| && StartsTag(s, p)
    ensures n < |Tags| && OccursAt(s, Tags[n], p)
    ensures 0 < |Tags[n]| && p + |Tags[n]| <= |s|
    ensures ReplacePairs(s, d, open, close, p) == Tags[n] + ReplacePairs(s, d, open, close, p + |Tags[n]|)
  {
    n :| 0 <= n < |Tags| && OccursAt(s, Tags[n], p);
    TagShape(n);
    CopyTag(s, d, open, close, p, Tags[n]);
  }

  /** Replacing marker pairs by tags keeps every `<` at the start of an allowed tag, when
      the tags put in are allowed ones and the marker is `*` or `_`. */
  lemma {:induction false} ReplaceKeepsTags(s: string, d: string, open: string, close: string, p: nat)
    requires |d| == 2 && p <= |s| && (d[0] == '*' || d[0] == '_')
    requires TagsOk(open) && TagsOk(close) && TagsOk(s)
    ensures TagsOk(ReplacePairs(s, d, open, close, p))
    decreases |s| - p
  {
    if p < |s| {
      var q := StepKeepsTags(s, d, open, close, p);
      ReplaceKeepsTags(s, d, open, close, q);
    }
  }

  /** One step of the scan at `p`: a match, a copied tag or a copied character. The output
      from `p` keeps the property when the output from the next position `q` does. */
  lemma {:induction false} StepKeepsTags(s: string, d: string, open: string, close: string, p: nat) returns (q: nat)
    requires |d| == 2 && p < |s| && (d[0] == '*' || d[0] == '_')
    requires TagsOk(open) && TagsOk(close) && TagsOk(s)
    ensures p < q <= |s|
    ensures TagsOk(ReplacePairs(s, d, open, close, q)) ==> TagsOk(ReplacePairs(s, d, open, close, p))
  {
    var c := FindClose(s, d, p + 2, p + 3);
    if OccursAt(s, d, p) && c.Some? {
      q := c.value + 2;
      if TagsOk(ReplacePairs(s, d, open, close, q)) {
        MatchKeepsTags(s, d, open, close, p, c.value);
      }
    } else if s[p] != '<' {
      q := p + 1;
      if TagsOk(ReplacePairs(s, d, open, close, q)) {
        PlainKeepsTags(s, d, open, close, p);
      }
    } else {
      assert StartsTag(s, p);
      q := TagStepKeepsTags(s, d, open, close, p);
    }
  }

  /** A character copied where no match starts keeps the property. */
  lemma {:induction false} PlainKeepsTags(s: string, d: string, open: string, close: string, p: nat)
    requires |d| == 2 && p < |s| && s[p] != '<'
    requires !(OccursAt(s, d, p) && FindClose(s, d, p + 2, p + 3).Some?)
    requires TagsOk(ReplacePairs(s, d, open, close, p + 1))
    ensures TagsOk(ReplacePairs(s, d, open, close, p))
  {
    assert ReplacePairs(s, d, open, close, p) == [s[p]] + ReplacePairs(s, d, open, close, p + 1);
    CharKeepsTags(s[p], ReplacePairs(s, d, open, close, p + 1));
  }

  /** A tag copied whole keeps the property. */
  lemma {:induction false} TagStepKeepsTags(s: string, d: string, open: string, close: string, p: nat) returns (q: nat)
    requires |d| == 2 && (d[0] == '*' || d[0] == '_') && p < |s| && StartsTag(s, p)
    ensures p < q <= |s|
    ensures TagsOk(ReplacePairs(s, d, open, close, q)) ==> TagsOk(ReplacePairs(s, d, open, close, p))
  {
    var n := CopyTagAt(s, d, open, close, p);
    q := p + |Tags[n]|;
    TagKeepsTags(n, ReplacePairs(s, d, open, close, q), ReplacePairs(s, d, open, close, p));
  }

  /** A match at `p` closing at `k` keeps the property when the rest of the output does. */
  lemma {:induction false} MatchKeepsTags(s: string, d: string, open: string, close: string, p: nat, k: nat)
    requires |d| == 2 && p < |s| && (d[0] == '*' || d[0] == '_')
    requires OccursAt(s, d, p) && FindClose(s, d, p + 2, p + 3) == Some(k)
    requires TagsOk(open) && TagsOk(close) && TagsOk(s)
    requires TagsOk(ReplacePairs(s, d, open, close, k + 2))
    ensures TagsOk(ReplacePairs(s, d, open, close, p))
  {
    MatchUnfold(s, d, open, close, p, k);
    SpanKeepsTags(s, d[0], open, close, p + 2, k, ReplacePairs(s, d, open, close, k + 2));
  }

  /** A match at `p` closing at `k` gives the open tag, the enclosed text and the close tag,
      and the scan resumes behind the closing marker. */
  lemma {:induction false} MatchUnfold(s: string, d: string, open: string, close: string, p: nat, k: nat)
    requires |d| == 2 && p < |s|
    requires OccursAt(s, d, p) && FindClose(s, d, p + 2, p + 3) == Some(k)
    ensures p + 2 < k && k + 2 <= |s| && s[k] == d[0]
    ensures ReplacePairs(s, d, open, close, p) ==
      open + s[p + 2..k] + close + ReplacePairs(s, d, open, close, k + 2)
  {
    assert OccursAt(s, d, k);
    assert s[k] == d[0] by { assert s[k..k + 2][0] == s[k]; }
    assert ReplacePairs(s, d, open, close, p) ==
      open + s[p + 2..k] + close + ReplacePairs(s, d, open, close, k + 2);
  }

  /** Turning line feeds into `<br>` keeps every `<` at the start of an allowed tag. */
  lemma {:induction false} BreaksKeepTags(s: string)
    requires TagsOk(s)
    ensures TagsOk(Breaks(s))
    decreases |s|
  {
    if s != [] {
      if s[0] == '<' {
        var n := TagAtFront(s);
        BreaksKeepTags(s[|Tags[n]|..]);
        BreaksTagStep(s, n);
      } else {
        TagsOkSuffix(s, 1);
        BreaksKeepTags(s[1..]);
        BreaksCharStep(s);
      }
    }
  }

  /** A text starting with `<` starts with an allowed tag, and what follows the tag keeps
      the property. */
  lemma {:induction false} TagAtFront(s: string) returns (n: nat)
    requires TagsOk(s) && s != [] && s[0] == '<'
    ensures n < |Tags| && OccursAt(s, Tags[n], 0) && TagsOk(s[|Tags[n]|..])
  {
    n :| 0 <= n < |Tags| && OccursAt(s, Tags[n], 0);
    TagsOkSuffix(s, |Tags[n]|);
  }

  /** A tag at the front of the text is kept by `Breaks`. */
  lemma {:induction false} BreaksTagStep(s: string, n: nat)
    requires n < |Tags| && OccursAt(s, Tags[n], 0)
    requires TagsOk(Breaks(s[|Tags[n]|..]))
    ensures TagsOk(Breaks(s))
  {
    TagShape(n);
    BreaksTagPrefix(s, Tags[n]);
    TagKeepsTags(n, Breaks(s[|Tags[n]|..]), Breaks(s));
  }

  /** A character other than `<` at the front of the text is kept by `Breaks` or becomes
      `<br>`. */
  lemma {:induction false} BreaksCharStep(s: string)
    requires s != [] && s[0] != '<'
    requires TagsOk(Breaks(s[1..]))
    ensures TagsOk(Breaks(s))
  {
    if s[0] == '\n' {
      TagKeepsTags(4, Breaks(s[1..]), Breaks(s));
    } else {
      CharKeepsTags(s[0], Breaks(s[1..]));
    }
  }

  /** A tag at the front passes through `Breaks` unchanged. */
  lemma {:induction false} BreaksTagPrefix(s: string, t: string)
    requires OccursAt(s, t, 0)
    requires forall m :: 0 <= m < |t| ==> t[m] != '\n'
    ensures Breaks(s) == t + Breaks(s[|t|..])
  {
    var rest := s[|t|..];
    assert s == t + rest;
    BreaksAppend(t, rest);
  }

  /** Because the text is escaped first, the only markup `formatMessage` can produce is
      `<strong>`, `</strong>`, `<em>`, `</em>` and `<br>`. */
  lemma {:induction false} FormatMessageOnlyTags(text: string)
    ensures TagsOk(FormatMessage(text))
  {
    var e := EscapeHtml(text);
    NoAngleIsOk(e);
    TagIsOk(0);
    TagIsOk(1);
    TagIsOk(2);
    TagIsOk(3);
    ReplaceKeepsTags(e, "**", "<strong>", "</strong>", 0);
    ReplaceKeepsTags(Bold(e), "__", "<em>", "</em>", 0);
    BreaksKeepTags(Italic(Bold(e)));
  }
}
