/**
 * `calculateConfidence`: the transcript's word count, as JavaScript's
 * `transcript.split(/\s+/).length` computes it, divided by 50 and clamped
 * to [0, 10].
 */
module Confidence {
  import opened JsString

  /** Length of the leading run of non-whitespace characters. */
  function WordLen(s: string): (k: nat)
    ensures k <= |s|
    ensures forall i :: 0 <= i < k ==> !IsWs(s[i])
    ensures k < |s| ==> IsWs(s[k])
    decreases |s|
  {
    if s == [] || IsWs(s[0]) then 0 else 1 + WordLen(s[1..])
  }

  /** Length of the leading run of whitespace characters. */
  function WsLen(s: string): (m: nat)
    ensures m <= |s|
    ensures forall i :: 0 <= i < m ==> IsWs(s[i])
    ensures m < |s| ==> !IsWs(s[m])
    decreases |s|
  {
    if s == [] || !IsWs(s[0]) then 0 else 1 + WsLen(s[1..])
  }

  /**
   * `s.split(/\s+/)`: the pieces between maximal whitespace runs. A leading
   * or trailing run yields an empty piece, and `""` yields `[""]`.
   */
  function SplitWs(s: string): (pieces: seq<string>)
    ensures |pieces| >= 1
    decreases |s|
  {
    var k := WordLen(s);
    if k == |s| then [s]
    else
      var m := WsLen(s[k..]);
      [s[..k]] + SplitWs(s[k + m..])
  }

  /** No piece contains whitespace: the separators are exactly the whitespace runs. */
  lemma {:induction false} SplitWsPiecesHaveNoWs(s: string)
    ensures forall i, j :: 0 <= i < |SplitWs(s)| && 0 <= j < |SplitWs(s)[i]| ==> !IsWs(SplitWs(s)[i][j])
    decreases |s|
  {
    var k := WordLen(s);
    if k < |s| {
      var tail := s[k + WsLen(s[k..])..];
      SplitWsPiecesHaveNoWs(tail);
      assert SplitWs(s) == [s[..k]] + SplitWs(tail);
    }
  }

  /**
   * Independent count of the maximal whitespace runs in `s`, scanning left to
   * right; `afterWs` says whether the character before `s` was whitespace.
   */
  function RunsAfter(s: string, afterWs: bool): nat
    decreases |s|
  {
    if s == [] then 0
    else (if IsWs(s[0]) && !afterWs then 1 else 0) + RunsAfter(s[1..], IsWs(s[0]))
  }

  /** Number of maximal whitespace runs in `s`. */
  function Runs(s: string): nat {
    RunsAfter(s, false)
  }

  lemma {:induction false} RunsSkipWord(s: string, p: bool, k: nat)
    requires 0 < k <= |s|
    requires forall i :: 0 <= i < k ==> !IsWs(s[i])
    ensures RunsAfter(s, p) == RunsAfter(s[k..], false)
    decreases k
  {
    if k > 1 {
      RunsSkipWord(s[1..], false, k - 1);
      assert s[1..][k - 1..] == s[k..];
    }
  }

  lemma {:induction false} RunsSkipSpace(s: string, m: nat)
    requires m <= |s|
    requires forall i :: 0 <= i < m ==> IsWs(s[i])
    ensures RunsAfter(s, true) == RunsAfter(s[m..], true)
    decreases m
  {
    if m > 0 {
      RunsSkipSpace(s[1..], m - 1);
      assert s[1..][m - 1..] == s[m..];
    }
  }

  /** A maximal whitespace run at the front is counted once, then skipped. */
  lemma {:induction false} RunsOfLeadingRun(r: string, m: nat)
    requires 0 < m <= |r|
    requires forall i :: 0 <= i < m ==> IsWs(r[i])
    requires m < |r| ==> !IsWs(r[m])
    ensures RunsAfter(r, false) == 1 + RunsAfter(r[m..], false)
  {
    assert RunsAfter(r, false) == 1 + RunsAfter(r[1..], true);
    RunsSkipSpace(r[1..], m - 1);
    assert r[1..][m - 1..] == r[m..];
  }

  /** A string with no whitespace has no run. */
  lemma RunsOfWord(s: string)
    requires WordLen(s) == |s|
    ensures Runs(s) == 0
  {
    if s != [] {
      RunsSkipWord(s, false, |s|);
      assert s[|s|..] == [];
    }
  }

  /** Past the first word and the run after it, one run has been counted. */
  lemma {:induction false} RunsAfterFirstRun(s: string, k: nat, m: nat)
    requires k == WordLen(s) < |s|
    requires m == WsLen(s[k..])
    ensures Runs(s) == 1 + Runs(s[k + m..])
  {
    var r := s[k..];
    if k > 0 {
      RunsSkipWord(s, false, k);
    } else {
      assert r == s;
    }
    assert RunsAfter(s, false) == RunsAfter(r, false);
    RunsOfLeadingRun(r, m);
    assert r[m..] == s[k + m..];
  }

  /** JavaScript's piece count is one more than the number of whitespace runs. */
  lemma {:induction false} PiecesAreRunsPlusOne(s: string)
    ensures |SplitWs(s)| == Runs(s) + 1
    decreases |s|
  {
    var k := WordLen(s);
    if k == |s| {
      RunsOfWord(s);
    } else {
      var m := WsLen(s[k..]);
      var tail := s[k + m..];
      assert |SplitWs(s)| == 1 + |SplitWs(tail)|;
      RunsAfterFirstRun(s, k, m);
      PiecesAreRunsPlusOne(tail);
    }
  }

  /** A non-empty run of non-whitespace characters. */
  predicate IsWord(w: string) {
    |w| > 0 && forall j :: 0 <= j < |w| ==> !IsWs(w[j])
  }

  /** A word followed by a space is the leading word. */
  lemma WordThenSpace(w: string, rest: string)
    requires IsWord(w)
    ensures WordLen(w + " " + rest) == |w|
  {
    var s := w + " " + rest;
    assert s[|w|] == ' ';
    assert forall i :: 0 <= i < |w| ==> s[i] == w[i];
  }

  /** A single space before a word is the whole leading separator. */
  lemma SpaceThenWord(rest: string)
    requires rest != [] && !IsWs(rest[0])
    ensures WsLen(" " + rest) == 1
  {
    assert (" " + rest)[1] == rest[0];
  }

  /** A single word is a single piece. */
  lemma SplitWsOfWord(w: string)
    requires IsWord(w)
    ensures SplitWs(w) == [w]
  {
    assert WordLen(w) == |w|;
  }

  /** A word, a single space, then more text: the word is the first piece. */
  lemma {:induction false} SplitWsStep(w: string, rest: string)
    requires IsWord(w)
    requires rest != [] && !IsWs(rest[0])
    ensures SplitWs(w + " " + rest) == [w] + SplitWs(rest)
  {
    var s := w + " " + rest;
    WordThenSpace(w, rest);
    SpaceThenWord(rest);
    assert s[|w|..] == " " + rest;
    assert s[|w| + 1..] == rest;
    assert s[..|w|] == w;
  }

  /**
   * Words separated by single spaces split back into exactly those words, so
   * such a transcript counts one word per word.
   */
  lemma {:induction false} SplitWsOfWords(words: seq<string>)
    requires |words| >= 1
    requires forall i :: 0 <= i < |words| ==> IsWord(words[i])
    ensures SplitWs(Join(words, " ")) == words
    decreases |words|
  {
    var w := words[0];
    assert IsWord(w);
    if |words| == 1 {
      SplitWsOfWord(w);
    } else {
      var tail := words[1..];
      assert forall i :: 0 <= i < |tail| ==> IsWord(tail[i]) by {
        assert forall i :: 0 <= i < |tail| ==> tail[i] == words[i + 1];
      }
      var rest := Join(tail, " ");
      SplitWsOfWords(tail);
      assert Join(words, " ") == w + " " + rest;
      assert IsWord(tail[0]) && rest[0] == tail[0][0];
      SplitWsStep(w, rest);
      assert words == [w] + tail;
    }
  }

  /** The word count of the route: a loop over the characters counting run starts. */
  method CountWords(s: string) returns (n: nat)
    ensures n == |SplitWs(s)|
    ensures n == Runs(s) + 1
  {
    n := 1;
    var i := 0;
    while i < |s|
      invariant 0 <= i <= |s|
      invariant n + RunsAfter(s[i..], i > 0 && IsWs(s[i - 1])) == Runs(s) + 1
    {
      assert s[i..][1..] == s[i + 1..];
      if IsWs(s[i]) && !(i > 0 && IsWs(s[i - 1])) {
        n := n + 1;
      }
      i := i + 1;
    }
    PiecesAreRunsPlusOne(s);
  }

  /** `Math.min(10, Math.max(0, count / 50))`, in exact arithmetic. */
  function ScoreOf(count: nat): (r: real)
    ensures 0.0 <= r <= 10.0
    ensures r == 10.0 <==> count >= 500
    ensures count <= 500 ==> r * 50.0 == count as real
  {
    var q := count as real / 50.0;
    var lo := if q > 0.0 then q else 0.0;
    if lo < 10.0 then lo else 10.0
  }

  /** `calculateConfidence(transcript)`. */
  function Score(transcript: string): (r: real)
    ensures 1.0 / 50.0 <= r <= 10.0
    ensures r == 10.0 <==> |SplitWs(transcript)| >= 500
    ensures |SplitWs(transcript)| <= 500 ==> r * 50.0 == (Runs(transcript) + 1) as real
  {
    PiecesAreRunsPlusOne(transcript);
    ScoreOf(|SplitWs(transcript)|)
  }

  /** More words never lower the score. */
  lemma ScoreMonotone(a: nat, b: nat)
    requires a <= b
    ensures ScoreOf(a) <= ScoreOf(b)
  {
  }

  /** The empty transcript still counts one word, so it scores 1/50, not 0. */
  lemma EmptyTranscriptScore()
    ensures Score("") == 1.0 / 50.0
  {
    assert WordLen("") == 0;
  }
}
