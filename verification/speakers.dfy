/**
 * `labelSpeakers`: a positional placeholder for speaker diarisation that
 * alternates Interviewer and Candidate and renders one line per segment.
 */
module Speakers {
  import opened Wrappers
  import opened JsString
  import opened Tsv

  /** `idx % 2 === 0 ? 'Interviewer' : 'Candidate'`. */
  function Speaker(idx: nat): string {
    if idx % 2 == 0 then "Interviewer" else "Candidate"
  }

  /** A template literal renders an `undefined` text as the word "undefined". */
  function Render(text: Option<string>): string {
    text.GetOr("undefined")
  }

  /**
   * The line pushed for segment `idx`. `fixed1` stands for
   * `parseFloat(column).toFixed(1)` applied to a timestamp column (`None`
   * for a missing column), which this model does not compute.
   */
  function LabelLine(idx: nat, t: Segment, fixed1: Option<string> -> string): (line: string)
    ensures "Interviewer" <= line <==> idx % 2 == 0
    ensures "Candidate" <= line <==> idx % 2 == 1
    ensures EndsWith(line, ": " + Render(t.text))
  {
    var head := Speaker(idx) + " [" + fixed1(Some(t.start)) + "-" + fixed1(t.end) + "s]";
    var line := head + (": " + Render(t.text));
    assert line[0] == Speaker(idx)[0];
    assert line == Speaker(idx) + " [" + fixed1(Some(t.start)) + "-" + fixed1(t.end) + "s]: " + Render(t.text);
    line
  }

  /** The `labeled` array: one line per segment, in order. */
  function Lines(timestamps: seq<Segment>, fixed1: Option<string> -> string): (labeled: seq<string>)
    ensures |labeled| == |timestamps|
  {
    seq(|timestamps|, i requires 0 <= i < |timestamps| => LabelLine(i, timestamps[i], fixed1))
  }

  /** `labelSpeakers(timestamps)`: the lines joined with newlines. */
  function LabelSpeakers(timestamps: seq<Segment>, fixed1: Option<string> -> string): (summary: string)
    ensures summary == "" <==> |timestamps| == 0
  {
    var labeled := Lines(timestamps, fixed1);
    assert |timestamps| > 0 ==> "Interviewer" <= labeled[0];
    Join(labeled, "\n")
  }

  /** The number formatter never emits a newline, as `toFixed` never does. */
  ghost predicate NewlineFree(fixed1: Option<string> -> string) {
    forall o :: '\n' !in fixed1(o)
  }

  lemma LineHasNoNewline(idx: nat, t: Segment, fixed1: Option<string> -> string)
    requires OneLine(t)
    requires NewlineFree(fixed1)
    ensures '\n' !in LabelLine(idx, t, fixed1)
  {
    var head := Speaker(idx) + " [" + fixed1(Some(t.start)) + "-" + fixed1(t.end) + "s]";
    assert '\n' !in head by {
      assert '\n' !in Speaker(idx);
      assert '\n' !in fixed1(Some(t.start)) && '\n' !in fixed1(t.end);
    }
    assert '\n' !in ": " + Render(t.text);
    assert LabelLine(idx, t, fixed1) == head + (": " + Render(t.text));
  }

  /**
   * The summary has exactly one line per segment and no more: line `i` starts
   * with "Interviewer" iff `i` is even and with "Candidate" iff `i` is odd, and
   * ends with ": " and the segment's text.
   */
  lemma SummaryLines(timestamps: seq<Segment>, fixed1: Option<string> -> string)
    requires forall i :: 0 <= i < |timestamps| ==> OneLine(timestamps[i])
    requires NewlineFree(fixed1)
    ensures |timestamps| > 0 ==>
      var ls := Split(LabelSpeakers(timestamps, fixed1), '\n');
      && |ls| == |timestamps|
      && forall i :: 0 <= i < |ls| ==>
        && ls[i] == LabelLine(i, timestamps[i], fixed1)
        && ("Interviewer" <= ls[i] <==> i % 2 == 0)
        && ("Candidate" <= ls[i] <==> i % 2 == 1)
        && EndsWith(ls[i], ": " + Render(timestamps[i].text))
  {
    var labeled := Lines(timestamps, fixed1);
    if |timestamps| > 0 {
      forall i | 0 <= i < |labeled|
        ensures '\n' !in labeled[i]
      {
        LineHasNoNewline(i, timestamps[i], fixed1);
      }
      SplitJoin(labeled, '\n');
    }
  }
}
