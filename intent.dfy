/** Keyword-based intent detection of the chatbot backend: greetings, which are
    answered locally, and follow-up requests, which reuse the previous answer. */
module Intent {
  import opened Text

  /** Phrases whose presence anywhere in the question marks it as a follow-up (a set in
      the source; only membership matters, so a sequence is used). */
  const FollowUpKeywords: seq<string> := [
    "short", "brief", "summarize", "summary", "short me", "short mein",
    "detail", "details", "explain", "explanation", "aur detail", "detail me", "detail mein",
    "same", "wahi", "yehi", "ye", "iska", "uska", "iska matlab", "uska matlab",
    "aur", "aur batao", "aur samjhao", "continue", "continue karo", "aage batao",
    "steps", "step", "step by step", "points", "bullet", "list me", "points me",
    "dubara", "phir se", "repeat", "rephrase", "simplify", "easy language", "simple language",
    "hinglish", "english me", "hindi me", "simple words"
  ]

  /** Phrases that open a greeting. */
  const GreetingKeywords: seq<string> := [
    "hi", "hello", "hey", "how are you", "good morning", "good afternoon", "good evening"
  ]

  /** `any(kw in s for kw in kws)`. */
  predicate AnyContained(s: string, kws: seq<string>) {
    |kws| > 0 && (Contains(s, kws[0]) || AnyContained(s, kws[1..]))
  }

  lemma {:induction false} AnyContainedIff(s: string, kws: seq<string>)
    ensures AnyContained(s, kws) <==> exists i :: 0 <= i < |kws| && Contains(s, kws[i])
  {
    if |kws| > 0 {
      AnyContainedIff(s, kws[1..]);
      if exists i :: 0 <= i < |kws| && Contains(s, kws[i]) {
        var i :| 0 <= i < |kws| && Contains(s, kws[i]);
        if i > 0 { assert Contains(s, kws[1..][i - 1]); }
      }
    }
  }

  lemma {:induction false} AnyContainedExtend(s: string, kws: seq<string>, a: string, b: string)
    requires AnyContained(s, kws)
    ensures AnyContained(a + s + b, kws)
  {
    if Contains(s, kws[0]) {
      ContainsExtend(s, kws[0], a, b);
    } else {
      AnyContainedExtend(s, kws[1..], a, b);
    }
  }

  lemma {:induction false} AnyContainedAppend(s: string, kws: seq<string>, b: string)
    requires AnyContained(s, kws)
    ensures AnyContained(s + b, kws)
  {
    AnyContainedExtend(s, kws, [], b);
    assert [] + s + b == s + b;
  }

  lemma {:induction false} AnyContainedPrepend(s: string, kws: seq<string>, a: string)
    requires AnyContained(s, kws)
    ensures AnyContained(a + s, kws)
  {
    AnyContainedExtend(s, kws, a, []);
    assert a + s + [] == a + s;
  }

  /** `_is_follow_up`: the lower-cased question contains some follow-up keyword,
      anywhere, even inside a longer word. */
  predicate IsFollowUp(question: string)
    ensures IsFollowUp(question) <==>
      exists i :: 0 <= i < |FollowUpKeywords| && Contains(Lower(question), FollowUpKeywords[i])
  {
    AnyContainedIff(Lower(question), FollowUpKeywords);
    AnyContained(Lower(question), FollowUpKeywords)
  }

  /** One test of the greeting loop: `ql` is the keyword, or starts with it followed
      by a space, an exclamation mark or a comma. */
  predicate GreetingMatch(ql: string, kw: string) {
    ql == kw || kw + " " <= ql || kw + "!" <= ql || kw + "," <= ql
  }

  /** The loop over the keywords, returning as soon as one matches. */
  predicate AnyGreetingMatch(ql: string, kws: seq<string>) {
    |kws| > 0 && (GreetingMatch(ql, kws[0]) || AnyGreetingMatch(ql, kws[1..]))
  }

  /** `_is_greeting`: the question, lower-cased and stripped, is non-empty and matches a
      greeting keyword. It holds exactly when the normalised question opens with a
      greeting keyword; the empty-text guard never changes the answer. */
  predicate IsGreeting(question: string)
    ensures IsGreeting(question) <==>
      exists i :: 0 <= i < |GreetingKeywords| && OpensWith(Strip(Lower(question)), GreetingKeywords[i])
  {
    var ql := Strip(Lower(question));
    AnyGreetingMatchIff(ql, GreetingKeywords);
    ql != [] && AnyGreetingMatch(ql, GreetingKeywords)
  }

  /** The greeting test read as "the first word is a greeting": `kw` is a prefix of `ql`
      that ends there or is followed by one of the three delimiters. */
  predicate OpensWith(ql: string, kw: string) {
    kw <= ql && (|ql| == |kw| || ql[|kw|] == ' ' || ql[|kw|] == '!' || ql[|kw|] == ',')
  }

  lemma {:induction false} GreetingMatchIsOpening(ql: string, kw: string)
    ensures GreetingMatch(ql, kw) <==> OpensWith(ql, kw)
  {
    forall d: char | (kw + [d]) <= ql
      ensures kw <= ql && |ql| > |kw| && ql[|kw|] == d
    {
      assert ql[..|kw|] == (kw + [d])[..|kw|];
    }
    if OpensWith(ql, kw) && |ql| > |kw| {
      assert ql[..|kw| + 1] == kw + [ql[|kw|]];
    }
  }

  lemma {:induction false} AnyGreetingMatchIff(ql: string, kws: seq<string>)
    ensures AnyGreetingMatch(ql, kws) <==> exists i :: 0 <= i < |kws| && OpensWith(ql, kws[i])
  {
    if |kws| > 0 {
      AnyGreetingMatchIff(ql, kws[1..]);
      GreetingMatchIsOpening(ql, kws[0]);
      if exists i :: 0 <= i < |kws| && OpensWith(ql, kws[i]) {
        var i :| 0 <= i < |kws| && OpensWith(ql, kws[i]);
        if i > 0 { assert OpensWith(ql, kws[1..][i - 1]); }
      }
    }
  }

  /** Lower-casing leaves whitespace alone. */
  lemma {:induction false} LowerOfSpace(ws: string)
    requires AllSpace(ws)
    ensures Lower(ws) == ws
  {
  }

  /** Empty and whitespace-only questions are never greetings. */
  lemma {:induction false} BlankIsNoGreeting(question: string)
    requires AllSpace(question)
    ensures !IsGreeting(question)
  {
    LowerOfSpace(question);
    StripEmpty(question);
  }

  /** Whitespace around the question does not change whether it is a greeting. */
  lemma {:induction false} GreetingIgnoresPadding(ws1: string, question: string, ws2: string)
    requires AllSpace(ws1) && AllSpace(ws2)
    ensures IsGreeting(ws1 + question + ws2) <==> IsGreeting(question)
  {
    LowerAppend(ws1 + question, ws2);
    LowerAppend(ws1, question);
    LowerOfSpace(ws1);
    LowerOfSpace(ws2);
    StripPadded(ws1, Lower(question), ws2);
  }

  /** Text that begins with `kw` and one of the delimiters still matches `kw` once stripped. */
  lemma {:induction false} OpenerMatches(x: string, kw: string)
    requires 0 < |kw| < |x| && x[..|kw|] == kw
    requires !IsSpace(kw[0]) && !IsSpace(kw[|kw| - 1])
    requires x[|kw|] == ' ' || x[|kw|] == '!' || x[|kw|] == ','
    ensures GreetingMatch(Strip(x), kw)
  {
    assert x[0] == kw[0] && x[|kw| - 1] == kw[|kw| - 1];
    StripKeepsHead(x, |kw|);
    var r := Strip(x);
    assert r[..|kw|] == kw;
    if |r| > |kw| {
      assert r[..|kw| + 1] == kw + [x[|kw|]];
    }
  }

  /** A question whose lower-cased text begins with a greeting keyword followed by a
      space, `!` or `,` is a greeting, whatever follows. */
  lemma {:induction false} GreetingOpener(question: string, i: nat)
    requires i < |GreetingKeywords|
    requires var kw := GreetingKeywords[i];
      |question| > |kw| && Lower(question)[..|kw|] == kw
    requires var n := |GreetingKeywords[i]|; question[n] == ' ' || question[n] == '!' || question[n] == ','
    ensures IsGreeting(question)
  {
    var kw, l := GreetingKeywords[i], Lower(question);
    GreetingKeywordShape(i);
    assert l[|kw|] == question[|kw|];
    OpenerMatches(l, kw);
    GreetingMatchIsOpening(Strip(l), kw);
    OpenerIsGreeting(question, i);
  }

  /** Every greeting keyword is non-empty and neither starts nor ends with whitespace. */
  lemma {:induction false} GreetingKeywordShape(i: nat)
    requires i < |GreetingKeywords|
    ensures var kw := GreetingKeywords[i]; 0 < |kw| && !IsSpace(kw[0]) && !IsSpace(kw[|kw| - 1])
  {
  }

  /** Opening with any one greeting keyword makes a greeting. */
  lemma {:induction false} OpenerIsGreeting(question: string, i: nat)
    requires i < |GreetingKeywords| && OpensWith(Strip(Lower(question)), GreetingKeywords[i])
    ensures IsGreeting(question)
  {
  }

  /** A lower-case string with no whitespace at either end is its own stripped,
      lower-cased form. */
  lemma {:induction false} NormalForm(s: string)
    requires IsLower(s) && Trimmed(s)
    ensures Strip(Lower(s)) == s
  {
    assert Lower(s) == s;
    StripUnique(s, s, 0);
  }

  /** "Hello there" is a greeting. */
  lemma {:induction false} GreetingHelloExample(a: string)
    requires a == "Hello there"
    ensures IsGreeting(a)
  {
    LowerPrefix(a, "hello");
    GreetingOpener(a, 1);
  }

  /** A keyword followed by a comma opens a greeting, whatever the rest asks. */
  lemma {:induction false} GreetingCommaExample(a: string)
    requires a == "Hello, how do I reset a password"
    ensures IsGreeting(a)
  {
    LowerPrefix(a, "hello");
    GreetingOpener(a, 1);
  }

  /** Every greeting keyword starts with `h` or `g`. */
  lemma {:induction false} KeywordInitials()
    ensures forall i :: 0 <= i < |GreetingKeywords| ==>
      |GreetingKeywords[i]| > 0 && (GreetingKeywords[i][0] == 'h' || GreetingKeywords[i][0] == 'g')
  {
  }

  /** A normalised question that starts with neither `h` nor `g` is no greeting. */
  lemma {:induction false} NoGreetingInitial(question: string)
    requires var ql := Strip(Lower(question)); ql != [] && ql[0] != 'h' && ql[0] != 'g'
    ensures !IsGreeting(question)
  {
    KeywordInitials();
  }

  /** A greeting keyword in the middle of the question does not make a greeting. */
  lemma {:induction false} NoGreetingInsideExample(a: string)
    requires a == "Tell me about hello world"
    ensures !IsGreeting(a)
  {
    var l := Lower(a);
    assert l[0] == 't' && !IsSpace(l[0]) && !IsSpace(l[|l| - 1]);
    StripUnique(l, l, 0);
    NoGreetingInitial(a);
  }

  /** Among the keywords starting with `h`, only "hi" has `i` as its second letter. */
  lemma {:induction false} KeywordSeconds()
    ensures forall i :: 0 <= i < |GreetingKeywords| ==>
      && |GreetingKeywords[i]| >= 2
      && (GreetingKeywords[i][0] == 'h' ==> GreetingKeywords[i] == "hi" || GreetingKeywords[i][1] != 'i')
  {
  }

  /** A question whose normalised form opens with "hi" followed by anything but a space,
      `!` or `,` is no greeting: "hi" is the only keyword that could open it, and it is not
      followed by a delimiter. This covers a word such as "history" and a full stop as in
      "hi.". */
  lemma {:induction false} HiWordNoGreeting(question: string)
    requires var ql := Strip(Lower(question));
      |ql| > 2 && ql[0] == 'h' && ql[1] == 'i' && ql[2] != ' ' && ql[2] != '!' && ql[2] != ','
    ensures !IsGreeting(question)
  {
    var ql := Strip(Lower(question));
    forall i | 0 <= i < |GreetingKeywords| ensures !OpensWith(ql, GreetingKeywords[i]) {
      HiNotOpened(ql, i);
    }
  }

  /** A keyword that is only the start of a word does not make a greeting. */
  lemma {:induction false} NoGreetingWordStartExample(b: string)
    requires b == "history"
    ensures !IsGreeting(b)
  {
    NormalForm(b);
    HiWordNoGreeting(b);
  }

  /** No single greeting keyword opens a text that starts with "hi" followed by something
      other than a delimiter: only "hi" matches its first two letters. */
  lemma {:induction false} HiNotOpened(b: string, i: nat)
    requires |b| > 2 && b[0] == 'h' && b[1] == 'i' && b[2] != ' ' && b[2] != '!' && b[2] != ','
    requires i < |GreetingKeywords|
    ensures !OpensWith(b, GreetingKeywords[i])
  {
    KeywordInitials();
    KeywordSeconds();
    var kw := GreetingKeywords[i];
    if kw <= b {
      assert kw[0] == b[0] && kw[1] == b[1];
      assert kw == "hi";
    }
  }

  /** Adding text before or after a follow-up question keeps it a follow-up. */
  lemma {:induction false} FollowUpMonotone(question: string, s: string)
    requires IsFollowUp(question)
    ensures IsFollowUp(question + s) && IsFollowUp(s + question)
  {
    LowerExtend(question, s, FollowUpKeywords);
  }

  /** Containing one of `kws` after lower-casing survives adding text on either side. */
  lemma {:induction false} LowerExtend(q: string, s: string, kws: seq<string>)
    requires AnyContained(Lower(q), kws)
    ensures AnyContained(Lower(q + s), kws) && AnyContained(Lower(s + q), kws)
  {
    LowerExtendRight(q, s, kws);
    LowerExtendLeft(q, s, kws);
  }

  lemma {:induction false} LowerExtendRight(q: string, s: string, kws: seq<string>)
    requires AnyContained(Lower(q), kws)
    ensures AnyContained(Lower(q + s), kws)
  {
    LowerAppend(q, s);
    AnyContainedAppend(Lower(q), kws, Lower(s));
  }

  lemma {:induction false} LowerExtendLeft(q: string, s: string, kws: seq<string>)
    requires AnyContained(Lower(q), kws)
    ensures AnyContained(Lower(s + q), kws)
  {
    LowerAppend(s, q);
    AnyContainedPrepend(Lower(q), kws, Lower(s));
  }

  /** A lower-case question containing a keyword at index `at` is a follow-up. */
  lemma {:induction false} FollowUpAt(question: string, i: nat, at: nat)
    requires IsLower(question) && i < |FollowUpKeywords|
    requires OccursAt(question, FollowUpKeywords[i], at)
    ensures IsFollowUp(question)
  {
    assert Lower(question) == question;
    AnyContainedIff(question, FollowUpKeywords);
  }

  /** A request for a summary is a follow-up: it contains "summary". */
  lemma {:induction false} FollowUpSummaryExample(a: string)
    requires a == "can you give a short summary"
    ensures IsFollowUp(a)
  {
    assert IsLower(a);
    assert OccursAt(a, FollowUpKeywords[3], 21);
    FollowUpAt(a, 3, 21);
  }

  /** A false positive of substring matching: "ye" occurs inside "year". */
  lemma {:induction false} FollowUpYearExample(b: string)
    requires b == "what happened last year"
    ensures IsFollowUp(b)
  {
    assert IsLower(b);
    assert OccursAt(b, FollowUpKeywords[16], 19);
    FollowUpAt(b, 16, 19);
  }

  /** "hello, explain" opens with a greeting keyword ... */
  lemma {:induction false} HelloExplainIsGreeting(q: string)
    requires q == "hello, explain"
    ensures IsGreeting(q)
  {
    var l := Lower(q);
    assert l[..5] == "hello";
    GreetingOpener(q, 1);
  }

  /** ... and holds the follow-up keyword "explain"; the orchestrator tests for a
      greeting first. */
  lemma {:induction false} HelloExplainIsFollowUp(q: string)
    requires q == "hello, explain"
    ensures IsFollowUp(q)
  {
    assert IsLower(q);
    assert OccursAt(q, FollowUpKeywords[8], 7);
    FollowUpAt(q, 8, 7);
  }
}
