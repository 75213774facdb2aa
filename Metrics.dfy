/** The live metrics calculator shared by the test page and the practice page
    (`calculateStats`): word count, words per minute, positional error count
    and accuracy, all in exact integer arithmetic. */
module Metrics {

  /** The live metrics the page displays and later submits. */
  datatype Metrics = Metrics(wpm: int, accuracy: int, errors: int)

  /** The inputs of one calculation: the reference text, the typed text and
      the seconds elapsed. */
  datatype Measurement = Measurement(content: string, typed: string, elapsed: int)

  // ---------------------------------------------------------------------
  // Rounding

  /** `Math.round(a / b)` for a positive divisor. Dafny's `/` with a positive
      divisor is floor division, so this is the floor of `a / b + 1/2`. */
  function RoundDiv(a: int, b: int): int
    requires b > 0
  {
    (2 * a + b) / (2 * b)
  }

  /** `RoundDiv` is the integer nearest to `a / b`, halves rounded up. */
  lemma RoundDivNearest(a: int, b: int)
    requires b > 0
    ensures -b <= 2 * (a - b * RoundDiv(a, b)) < b
  {
    var q := RoundDiv(a, b);
    var rem := (2 * a + b) % (2 * b);
    assert 2 * a + b == 2 * b * q + rem && 0 <= rem < 2 * b;
  }

  // ---------------------------------------------------------------------
  // Word count: `typed.trim().split(/\s+/).length`

  /** The characters JavaScript's `\s` matches and `trim` strips: the
      WhiteSpace and LineTerminator productions of ECMAScript (tab, vertical
      tab, form feed, space, no-break space, the byte order mark, the
      Unicode space separators, line feed, carriage return, and the line and
      paragraph separators). */
  const Whitespace: set<char> := {
    '\t', '\n', '\U{000B}', '\U{000C}', '\r', ' ', '\U{00A0}', '\U{1680}',
    '\U{2000}', '\U{2001}', '\U{2002}', '\U{2003}', '\U{2004}', '\U{2005}',
    '\U{2006}', '\U{2007}', '\U{2008}', '\U{2009}', '\U{200A}',
    '\U{2028}', '\U{2029}', '\U{202F}', '\U{205F}', '\U{3000}', '\U{FEFF}'
  }

  predicate IsSpace(c: char) {
    c in Whitespace
  }

  /** Leading whitespace removed. */
  function TrimStart(s: string): (r: string)
    ensures |r| <= |s|
  {
    if s != [] && IsSpace(s[0]) then TrimStart(s[1..]) else s
  }

  /** `TrimStart` removes exactly the leading run of whitespace. */
  lemma {:induction false} TrimStartSpec(s: string)
    ensures TrimStart(s) == s[|s| - |TrimStart(s)|..]
    ensures TrimStart(s) != [] ==> !IsSpace(TrimStart(s)[0])
    ensures forall k :: 0 <= k < |s| - |TrimStart(s)| ==> IsSpace(s[k])
    decreases |s|
  {
    if s != [] && IsSpace(s[0]) {
      TrimStartSpec(s[1..]);
    }
  }

  /** Trailing whitespace removed. */
  function TrimEnd(s: string): (r: string)
    ensures |r| <= |s|
  {
    if s != [] && IsSpace(s[|s| - 1]) then TrimEnd(s[..|s| - 1]) else s
  }

  /** `TrimEnd` removes exactly the trailing run of whitespace. */
  lemma {:induction false} TrimEndSpec(s: string)
    ensures TrimEnd(s) == s[..|TrimEnd(s)|]
    ensures TrimEnd(s) != [] ==> !IsSpace(TrimEnd(s)[|TrimEnd(s)| - 1])
    ensures forall k :: |TrimEnd(s)| <= k < |s| ==> IsSpace(s[k])
    decreases |s|
  {
    if s != [] && IsSpace(s[|s| - 1]) {
      TrimEndSpec(s[..|s| - 1]);
    }
  }

  /** `String.prototype.trim`. */
  function Trim(s: string): string {
    TrimEnd(TrimStart(s))
  }

  /** The trimmed text is a piece of the original that neither starts nor
      ends with whitespace, and everything removed is whitespace. */
  lemma TrimSpec(s: string)
    ensures exists i, j :: 0 <= i <= j <= |s| && Trim(s) == s[i..j]
              && (forall k :: 0 <= k < i ==> IsSpace(s[k]))
              && (forall k :: j <= k < |s| ==> IsSpace(s[k]))
    ensures Trim(s) != [] ==> !IsSpace(Trim(s)[0]) && !IsSpace(Trim(s)[|Trim(s)| - 1])
  {
    TrimStartSpec(s);
    var t := TrimStart(s);
    TrimEndSpec(t);
    var i := |s| - |t|;
    var j := i + |Trim(s)|;
    assert Trim(s) == s[i..j];
    forall k | j <= k < |s|
      ensures IsSpace(s[k])
    {
      assert s[k] == t[k - i];
    }
  }

  /** Index of the first whitespace character of `t`, or `|t|` if none. */
  function FirstSpace(t: string): (i: nat)
    ensures i <= |t|
    ensures i < |t| ==> IsSpace(t[i])
  {
    if t == [] || IsSpace(t[0]) then 0 else 1 + FirstSpace(t[1..])
  }

  /** `FirstSpace` finds the first whitespace character. */
  lemma {:induction false} FirstSpaceSpec(t: string)
    ensures forall k :: 0 <= k < FirstSpace(t) ==> !IsSpace(t[k])
    decreases |t|
  {
    if t != [] && !IsSpace(t[0]) {
      FirstSpaceSpec(t[1..]);
    }
  }

  /** Length of the run of whitespace that `t` begins with. */
  function SpaceRun(t: string): (i: nat)
    ensures i <= |t|
    ensures i < |t| ==> !IsSpace(t[i])
    ensures i > 0 ==> IsSpace(t[i - 1])
  {
    if t == [] || !IsSpace(t[0]) then 0 else 1 + SpaceRun(t[1..])
  }

  /** `SpaceRun` measures the maximal leading run of whitespace. */
  lemma {:induction false} SpaceRunSpec(t: string)
    ensures forall k :: 0 <= k < SpaceRun(t) ==> IsSpace(t[k])
    decreases |t|
  {
    if t != [] && IsSpace(t[0]) {
      SpaceRunSpec(t[1..]);
    }
  }

  /** `t.split(/\s+/)`: the pieces of `t` between maximal runs of whitespace,
      with an empty piece before a leading run and after a trailing one, and
      `[""]` for the empty string, as JavaScript does. */
  function SplitWs(t: string): (pieces: seq<string>)
    ensures |pieces| >= 1
    decreases |t|
  {
    var i := FirstSpace(t);
    if i == |t| then [t]
    else
      var j := i + SpaceRun(t[i..]);
      [t[..i]] + SplitWs(t[j..])
  }

  /** Reference definition: the number of maximal runs of non-whitespace
      characters, scanning left to right; `afterSpace` says whether the
      previous character was whitespace (or there was none). */
  function TokenStarts(s: string, afterSpace: bool): nat
    decreases |s|
  {
    if s == [] then 0
    else (if afterSpace && !IsSpace(s[0]) then 1 else 0) + TokenStarts(s[1..], IsSpace(s[0]))
  }

  /** The number of whitespace-separated tokens of `s`. */
  function Tokens(s: string): nat {
    TokenStarts(s, true)
  }

  lemma {:induction false} TokenStartsAppend(a: string, b: string, p: bool)
    ensures TokenStarts(a + b, p)
         == TokenStarts(a, p) + TokenStarts(b, if a == [] then p else IsSpace(a[|a| - 1]))
    decreases |a|
  {
    if a == [] {
      assert a + b == b;
    } else {
      assert (a + b)[0] == a[0];
      assert (a + b)[1..] == a[1..] + b;
      TokenStartsAppend(a[1..], b, IsSpace(a[0]));
    }
  }

  /** Scanning a leading word: its first character starts a token if it
      follows whitespace, and the scan resumes after the word as if after
      whitespace, since the word ends at whitespace or at the end. */
  lemma {:induction false} WordPrefix(t: string, p: bool)
    ensures TokenStarts(t, p) == (if FirstSpace(t) > 0 && p then 1 else 0) + TokenStarts(t[FirstSpace(t)..], true)
    decreases |t|
  {
    if t != [] && !IsSpace(t[0]) {
      WordPrefix(t[1..], false);
      assert t[1..][FirstSpace(t[1..])..] == t[FirstSpace(t)..];
    } else {
      assert t[0..] == t;
    }
  }

  /** Scanning a leading run of whitespace starts no token, and the scan
      resumes after it as if after whitespace if the run is not empty. */
  lemma {:induction false} GapPrefix(t: string, p: bool)
    ensures TokenStarts(t, p) == TokenStarts(t[SpaceRun(t)..], SpaceRun(t) > 0 || p)
    decreases |t|
  {
    if t != [] && IsSpace(t[0]) {
      GapPrefix(t[1..], true);
      assert t[1..][SpaceRun(t[1..])..] == t[SpaceRun(t)..];
    } else {
      assert t[0..] == t;
    }
  }

  lemma {:induction false} TrimStartTokens(s: string)
    ensures Tokens(TrimStart(s)) == Tokens(s)
    decreases |s|
  {
    if s != [] && IsSpace(s[0]) {
      TrimStartTokens(s[1..]);
    }
  }

  lemma {:induction false} TrimEndTokens(s: string, p: bool)
    ensures TokenStarts(TrimEnd(s), p) == TokenStarts(s, p)
    decreases |s|
  {
    if s != [] && IsSpace(s[|s| - 1]) {
      var init := s[..|s| - 1];
      assert s == init + [s[|s| - 1]];
      TokenStartsAppend(init, [s[|s| - 1]], p);
      TrimEndTokens(init, p);
    }
  }

  /** A text that starts with a word and then has whitespace: the word
      `t[..i]` is one token, the gap `t[i..j]` ends before the end of the
      text, and the rest starts with a non-whitespace character. */
  lemma WordThenGap(t: string, i: nat, j: nat)
    requires t != [] && !IsSpace(t[0]) && !IsSpace(t[|t| - 1])
    requires i == FirstSpace(t) < |t| && j == i + SpaceRun(t[i..])
    ensures 0 < i < j < |t| && !IsSpace(t[j])
    ensures Tokens(t) == 1 + Tokens(t[j..])
  {
    assert t[i..][j - i - 1] == t[j - 1];
    assert j < |t| ==> t[i..][j - i] == t[j];
    WordPrefix(t, true);
    GapPrefix(t[i..], true);
    assert t[i..][j - i..] == t[j..];
  }

  /** A non-empty text without whitespace is one piece and one token. */
  lemma SingleWord(t: string)
    requires t != [] && !IsSpace(t[0]) && FirstSpace(t) == |t|
    ensures |SplitWs(t)| == 1 == Tokens(t)
  {
    WordPrefix(t, true);
  }

  /** One step of the split: the first piece, then the split of what
      follows the first run of whitespace. */
  lemma SplitStep(t: string, i: nat, j: nat)
    requires i == FirstSpace(t) < |t| && j == i + SpaceRun(t[i..])
    ensures |SplitWs(t)| == 1 + |SplitWs(t[j..])|
  {
  }

  /** The split of a string with no whitespace at either end has one piece
      per token. */
  lemma {:induction false} SplitCountsTokens(t: string)
    requires t != [] && !IsSpace(t[0]) && !IsSpace(t[|t| - 1])
    ensures |SplitWs(t)| == Tokens(t)
    decreases |t|
  {
    var i := FirstSpace(t);
    if i == |t| {
      SingleWord(t);
    } else {
      var j := i + SpaceRun(t[i..]);
      WordThenGap(t, i, j);
      SplitStep(t, i, j);
      SplitCountsTokens(t[j..]);
    }
  }

  /** The word count the pages use for WPM: the number of whitespace-separated
      tokens of the typed text, except that text with no token still counts
      as one word, because `"".split(/\s+/)` is `[""]`. */
  function WordCount(typed: string): (n: nat)
    ensures n >= 1
  {
    if Tokens(typed) == 0 then 1 else Tokens(typed)
  }

  /** `typed.trim().split(/\s+/).length` is the word count. */
  lemma SplitLengthIsWordCount(typed: string)
    ensures |SplitWs(Trim(typed))| == WordCount(typed)
  {
    var t := Trim(typed);
    TrimStartTokens(typed);
    TrimEndTokens(TrimStart(typed), true);
    if t == [] {
      assert SplitWs(t) == [t];
    } else {
      TrimSpec(typed);
      SplitCountsTokens(t);
    }
  }

  // ---------------------------------------------------------------------
  // Errors and accuracy

  /** Whether the typed character at `i` counts as an error: JavaScript's
      `content[i]` is `undefined` past the end, which differs from any
      character. */
  predicate Differs(content: string, i: nat, c: char) {
    i >= |content| || content[i] != c
  }

  /** The number of positions `i < |typed|` where `typed[i]` differs from
      `content[i]`. */
  function ErrorCount(typed: string, content: string): (n: nat)
    ensures n <= |typed|
  {
    if typed == [] then 0
    else
      ErrorCount(typed[..|typed| - 1], content)
        + (if Differs(content, |typed| - 1, typed[|typed| - 1]) then 1 else 0)
  }

  /** `typed` is a prefix of `content`. */
  predicate IsPrefixOf(typed: string, content: string) {
    |typed| <= |content| && typed == content[..|typed|]
  }

  /** There are no errors exactly when the typed text is a prefix of the
      reference text. */
  lemma {:induction false} NoErrorsIffPrefix(typed: string, content: string)
    ensures ErrorCount(typed, content) == 0 <==> IsPrefixOf(typed, content)
    decreases |typed|
  {
    if typed != [] {
      var init := typed[..|typed| - 1];
      NoErrorsIffPrefix(init, content);
      if IsPrefixOf(typed, content) {
        assert init == content[..|init|];
      }
      if ErrorCount(typed, content) == 0 {
        assert typed == init + [typed[|typed| - 1]];
      }
    }
  }

  /** `Math.round((len - errors) / len * 100)`, or 100 before any input. */
  function Accuracy(len: nat, errors: nat): int {
    if len > 0 then RoundDiv(100 * (len - errors), len) else 100
  }

  /** With a positive factor, a product has the sign of the other factor. */
  lemma ProductSign(n: int, x: int)
    requires n > 0
    ensures n * x > 0 ==> x > 0
    ensures n * x < 0 ==> x < 0
  {
  }

  /** Floor division by a positive divisor reaches `k` exactly when the
      dividend reaches `k` times the divisor. */
  lemma DivAtLeast(x: int, d: int, k: int)
    requires d > 0
    ensures x / d >= k <==> x >= k * d
  {
    var q, r := x / d, x % d;
    assert x == d * q + r && 0 <= r < d;
    assert d * (q - k) == d * q - k * d;
    assert d * (k - 1 - q) == k * d - d - d * q;
    ProductSign(d, q - k);
    ProductSign(d, k - 1 - q);
  }

  /** Accuracy is a percentage, 100 with no errors, and, once something is
      typed, 100 exactly when at most one character in 200 is wrong. */
  lemma AccuracyBounds(len: nat, errors: nat)
    requires errors <= len
    ensures 0 <= Accuracy(len, errors) <= 100
    ensures errors == 0 ==> Accuracy(len, errors) == 100
    ensures len > 0 ==> (Accuracy(len, errors) == 100 <==> 200 * errors <= len)
  {
    if len > 0 {
      var n: int, e: int := len, errors;
      var x := 2 * (100 * (n - e)) + n;
      assert Accuracy(len, errors) == x / (2 * n);
      DivAtLeast(x, 2 * n, 0);
      DivAtLeast(x, 2 * n, 100);
      DivAtLeast(x, 2 * n, 101);
    }
  }

  /** Rounding hides a single error once the text is 200 characters long. */
  lemma OneErrorInTwoHundredRoundsToFull()
    ensures Accuracy(200, 1) == 100
    ensures Accuracy(199, 1) == 99
  {
  }

  /** The pass threshold of 90 on the rounded accuracy admits up to 10.5%
      wrong characters. */
  lemma AccuracyAtLeastNinety(len: nat, errors: nat)
    requires 0 < len && errors <= len
    ensures Accuracy(len, errors) >= 90 <==> 200 * errors <= 21 * len
  {
    var n: int, e: int := len, errors;
    var x := 2 * (100 * (n - e)) + n;
    assert Accuracy(len, errors) == x / (2 * n);
    DivAtLeast(x, 2 * n, 90);
  }

  // ---------------------------------------------------------------------
  // Words per minute and the whole calculation

  /** `Math.round(words / (elapsed / 60))`, or 0 when no time has elapsed. */
  function Speed(words: int, elapsed: int): int {
    if elapsed > 0 then RoundDiv(60 * words, elapsed) else 0
  }

  /** The speed of the typed text after `elapsed` seconds. */
  function Wpm(typed: string, elapsed: int): int {
    Speed(WordCount(typed), elapsed)
  }

  /** What `calculateStats` computes for the reference text, the typed text
      and the seconds elapsed (`duration - timeLeft`). */
  function Stats(content: string, typed: string, elapsed: int): Metrics {
    var errors := ErrorCount(typed, content);
    Metrics(Wpm(typed, elapsed), Accuracy(|typed|, errors), errors)
  }

  /** Speed is never negative, and zero until time has elapsed. */
  lemma SpeedBounds(w: nat, elapsed: int)
    ensures Speed(w, elapsed) >= 0
    ensures elapsed <= 0 ==> Speed(w, elapsed) == 0
  {
    if elapsed > 0 {
      DivAtLeast(2 * (60 * w) + elapsed, 2 * elapsed, 0);
    }
  }

  /** The invariants of the metrics: errors within the typed length,
      accuracy a percentage, no speed without elapsed time, and a perfect
      score for a prefix of the reference text. */
  lemma StatsBounds(content: string, typed: string, elapsed: int)
    ensures 0 <= Stats(content, typed, elapsed).errors <= |typed|
    ensures 0 <= Stats(content, typed, elapsed).accuracy <= 100
    ensures Stats(content, typed, elapsed).wpm >= 0
    ensures elapsed <= 0 ==> Stats(content, typed, elapsed).wpm == 0
    ensures IsPrefixOf(typed, content) ==>
              Stats(content, typed, elapsed).errors == 0 && Stats(content, typed, elapsed).accuracy == 100
  {
    AccuracyBounds(|typed|, ErrorCount(typed, content));
    NoErrorsIffPrefix(typed, content);
    SpeedBounds(WordCount(typed), elapsed);
  }

  /** Before any input the metrics are the initial ones the pages show. */
  lemma StatsOfNothing(content: string)
    ensures Stats(content, [], 0) == Metrics(0, 100, 0)
  {
  }

  /** Worked examples: empty input, "abc" against "axc", and three words in
      30 seconds. */
  lemma StatsExamples()
    ensures Stats("hello", "", 0) == Metrics(0, 100, 0)
    ensures Stats("axc", "abc", 0) == Metrics(0, 67, 1)
    ensures Speed(3, 30) == 6
  {
    assert "abc"[..2] == "ab";
    assert "ab"[..1] == "a";
    assert "a"[..0] == "";
  }

  /** A worked example through the word count: three words typed in 30
      seconds give 6 words per minute. */
  lemma WpmExample()
    ensures Wpm("hello world foo", 30) == 6
  {
    var t := "hello" + ([' '] + ("world" + ([' '] + "foo")));
    ThreeWords();
    ThreeWordsInHalfAMinute(t);
    assert "hello world foo" == t;
  }

  /** Three tokens typed in 30 seconds make 6 words per minute. */
  lemma ThreeWordsInHalfAMinute(t: string)
    requires Tokens(t) == 3
    ensures Wpm(t, 30) == 6
  {
  }

  /** "hello world foo" has three tokens, counted word by word. */
  lemma ThreeWords()
    ensures Tokens("hello" + ([' '] + ("world" + ([' '] + "foo")))) == 3
  {
    var a, b, c := "hello", "world", "foo";
    WordTokens(a, true);
    WordTokens(b, true);
    WordTokens(c, true);
    SpaceThenWord(c);
    TokenStartsAppend(b, [' '] + c, false);
    SpaceThenWord(b + ([' '] + c));
    TokenStartsAppend(a, [' '] + (b + ([' '] + c)), true);
  }

  /** A word without whitespace starts one token, after whitespace. */
  lemma {:induction false} WordTokens(w: string, p: bool)
    requires w != [] && forall k :: 0 <= k < |w| ==> 'a' <= w[k] <= 'z'
    ensures TokenStarts(w, p) == if p then 1 else 0
    ensures !IsSpace(w[|w| - 1])
    decreases |w|
  {
    LetterNotSpace(w[0]);
    LetterNotSpace(w[|w| - 1]);
    if |w| > 1 {
      WordTokens(w[1..], false);
      assert w[|w| - 1] == w[1..][|w| - 2];
    }
  }

  /** No lower-case letter is whitespace. */
  lemma LetterNotSpace(c: char)
    requires 'a' <= c <= 'z'
    ensures !IsSpace(c)
  {
  }

  /** A space does not start a token, and the text after it starts afresh. */
  lemma SpaceThenWord(w: string)
    ensures TokenStarts([' '] + w, false) == TokenStarts(w, true)
  {
    assert ([' '] + w)[1..] == w;
  }

  /** `calculateStats`: the word count, the speed, then the error count by a
      left-to-right scan, then the accuracy. */
  method CalculateStats(content: string, typed: string, elapsed: int) returns (m: Metrics)
    ensures m == Stats(content, typed, elapsed)
  {
    var words := |SplitWs(Trim(typed))|;
    var currentWpm := if elapsed > 0 then RoundDiv(60 * words, elapsed) else 0;
    assert currentWpm == Wpm(typed, elapsed) by {
      SplitLengthIsWordCount(typed);
    }
    var errorCount := 0;
    for i := 0 to |typed|
      invariant errorCount == ErrorCount(typed[..i], content)
    {
      assert typed[..i + 1][..i] == typed[..i];
      if Differs(content, i, typed[i]) {
        errorCount := errorCount + 1;
      }
    }
    assert typed[..|typed|] == typed;
    var acc := if |typed| > 0 then RoundDiv(100 * (|typed| - errorCount), |typed|) else 100;
    m := Metrics(currentWpm, acc, errorCount);
  }
}
