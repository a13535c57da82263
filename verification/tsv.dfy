/**
 * The table parser inside `transcribeAudio`: whisper's tab-separated output
 * becomes a sequence of segments and a flattened transcript.
 */
module Tsv {
  import opened Wrappers
  import opened JsString

  /**
   * One parsed row. The timestamps are kept as the column text that
   * `parseFloat` reads (`end` is absent when the row has one column, which
   * `parseFloat(undefined)` turns into NaN); `text` is absent when the row
   * has fewer than three columns.
   */
  datatype Segment = Segment(start: string, end: Option<string>, text: Option<string>)

  /** `cols[i]`, which is `undefined` past the end. */
  function Column(cols: seq<string>, i: nat): (c: Option<string>)
    ensures c.Some? <==> i < |cols|
    ensures c.Some? ==> c.value == cols[i]
  {
    if i < |cols| then Some(cols[i]) else None
  }

  /** No field of the segment contains a newline. */
  predicate OneLine(seg: Segment) {
    && '\n' !in seg.start
    && (seg.end.Some? ==> '\n' !in seg.end.value)
    && (seg.text.Some? ==> '\n' !in seg.text.value)
  }

  /** The body of the loop for one non-blank line: split on tabs, keep columns 0-2. */
  function ParseLine(line: string): (seg: Segment)
    ensures '\t' !in seg.start
    ensures seg.text.Some? ==> '\t' !in seg.text.value && seg.end.Some?
    ensures '\n' !in line ==> OneLine(seg)
  {
    var cols := Split(line, '\t');
    SplitAvoids(line, '\t', '\n');
    Segment(cols[0], Column(cols, 1), Column(cols, 2))
  }

  /**
   * The columns of a row are its tab-separated fields: the first three become
   * start, end and text, and any further fields are dropped. A row with fewer
   * than three fields is not rejected; its missing fields are absent.
   */
  lemma ParseLineColumns(cols: seq<string>)
    requires |cols| >= 1
    requires forall i :: 0 <= i < |cols| ==> '\t' !in cols[i]
    ensures ParseLine(Join(cols, "\t")) == Segment(cols[0], Column(cols, 1), Column(cols, 2))
  {
    SplitJoin(cols, '\t');
  }

  /** The lines after the header: `rawTSV.split('\n').slice(1)`. */
  function BodyLines(raw: string): (lines: seq<string>)
    ensures forall i :: 0 <= i < |lines| ==> '\n' !in lines[i]
  {
    Split(raw, '\n')[1..]
  }

  /** The lines the loop does not `continue` past, in order. */
  function NonBlank(lines: seq<string>): (kept: seq<string>)
    ensures |kept| <= |lines|
    ensures forall i :: 0 <= i < |kept| ==> !IsBlank(kept[i])
  {
    if lines == [] then []
    else
      var last := lines[|lines| - 1];
      NonBlank(lines[..|lines| - 1]) + (if IsBlank(last) then [] else [last])
  }

  lemma {:induction false} NonBlankAppend(a: seq<string>, b: seq<string>)
    ensures NonBlank(a + b) == NonBlank(a) + NonBlank(b)
    decreases |b|
  {
    if b == [] {
      assert a + b == a;
    } else {
      var b' := b[..|b| - 1];
      assert (a + b)[..|a + b| - 1] == a + b';
      NonBlankAppend(a, b');
    }
  }

  /** Every line in the list is non-blank, so filtering keeps them all. */
  lemma {:induction false} NonBlankKeepsAll(lines: seq<string>)
    requires forall i :: 0 <= i < |lines| ==> !IsBlank(lines[i])
    ensures NonBlank(lines) == lines
    decreases |lines|
  {
    if lines != [] {
      NonBlankKeepsAll(lines[..|lines| - 1]);
    }
  }

  /** Filtering only drops lines: whatever every line avoids, every kept line avoids. */
  lemma {:induction false} NonBlankAvoids(lines: seq<string>, x: char)
    requires forall i :: 0 <= i < |lines| ==> x !in lines[i]
    ensures forall i :: 0 <= i < |NonBlank(lines)| ==> x !in NonBlank(lines)[i]
    decreases |lines|
  {
    if lines != [] {
      NonBlankAvoids(lines[..|lines| - 1], x);
    }
  }

  /** Parses each line. */
  function ParseAll(lines: seq<string>): (segs: seq<Segment>)
    ensures |segs| == |lines|
  {
    seq(|lines|, i requires 0 <= i < |lines| => ParseLine(lines[i]))
  }

  /** One more line read: it is kept at the end exactly when it is not blank. */
  lemma NonBlankSnoc(lines: seq<string>, line: string)
    ensures NonBlank(lines + [line]) == NonBlank(lines) + (if IsBlank(line) then [] else [line])
  {
    assert (lines + [line])[..|lines|] == lines;
  }

  /** One more kept line: one more segment at the end. */
  lemma ParseAllSnoc(kept: seq<string>, line: string)
    ensures ParseAll(kept + [line]) == ParseAll(kept) + [ParseLine(line)]
  {
    assert ParseAll(kept + [line])[|kept|] == ParseLine(line);
  }

  /** The `timestamps` array `transcribeAudio` builds from the table text. */
  function Segments(raw: string): (segs: seq<Segment>)
    ensures forall i :: 0 <= i < |segs| ==> OneLine(segs[i])
  {
    NonBlankAvoids(BodyLines(raw), '\n');
    ParseAll(NonBlank(BodyLines(raw)))
  }

  /** What `join` makes of one pushed `text`: `undefined` becomes `""`. */
  function TextOrEmpty(text: Option<string>): string {
    text.GetOr("")
  }

  /**
   * `transcriptLines.join(' ')`: the segment texts, in order, separated by
   * single spaces. It starts with the first segment's text, and a single
   * segment flattens to its text alone (`""` when it has none).
   */
  function Transcript(segs: seq<Segment>): (transcript: string)
    ensures |segs| >= 1 ==>
      var first := TextOrEmpty(segs[0].text);
      |transcript| >= |first| && transcript[..|first|] == first
    ensures |segs| == 1 ==> transcript == TextOrEmpty(segs[0].text)
  {
    Join(Texts(segs), " ")
  }

  /** The `transcriptLines` array: one text per segment, in order. */
  function Texts(segs: seq<Segment>): (texts: seq<string>)
    ensures |texts| == |segs|
    ensures forall i :: 0 <= i < |segs| ==> texts[i] == TextOrEmpty(segs[i].text)
  {
    seq(|segs|, i requires 0 <= i < |segs| => TextOrEmpty(segs[i].text))
  }

  /** One more segment pushed: one more text at the end. */
  lemma TextsSnoc(segs: seq<Segment>, seg: Segment)
    ensures Texts(segs + [seg]) == Texts(segs) + [TextOrEmpty(seg.text)]
  {
  }

  /** The flattened transcript is built piecewise from the segments, and only from their texts. */
  lemma TranscriptAppend(a: seq<Segment>, b: seq<Segment>)
    requires |a| >= 1 && |b| >= 1
    ensures Transcript(a + b) == Transcript(a) + " " + Transcript(b)
  {
    assert Texts(a + b) == Texts(a) + Texts(b);
    JoinAppend(Texts(a), Texts(b), " ");
  }

  /**
   * The parsing loop of `transcribeAudio`: skip the header, skip blank lines,
   * parse the rest, and join their texts with spaces.
   */
  method ParseTable(raw: string) returns (timestamps: seq<Segment>, transcript: string)
    ensures timestamps == Segments(raw)
    ensures |timestamps| == |NonBlank(BodyLines(raw))|
    ensures transcript == Transcript(timestamps)
  {
    var lines := Split(raw, '\n')[1..];
    var texts: seq<string> := [];
    timestamps := [];
    ghost var kept: seq<string> := [];
    for i := 0 to |lines|
      invariant kept == NonBlank(lines[..i])
      invariant timestamps == ParseAll(kept)
      invariant texts == Texts(timestamps)
    {
      var line := lines[i];
      assert lines[..i + 1] == lines[..i] + [line];
      NonBlankSnoc(lines[..i], line);
      TrimEmptyIffBlank(line);
      if Trim(line) == [] {
        continue;
      }
      var seg := ParseLine(line);
      ParseAllSnoc(kept, line);
      TextsSnoc(timestamps, seg);
      timestamps := timestamps + [seg];
      texts := texts + [TextOrEmpty(seg.text)];
      kept := kept + [line];
    }
    assert lines[..|lines|] == lines;
    transcript := Join(texts, " ");
  }

  /** The header line is always dropped: a table without a newline has no segments. */
  lemma HeaderOnly(raw: string)
    requires '\n' !in raw
    ensures Segments(raw) == []
  {
    SplitNoSep(raw, '\n');
  }

  /** Whatever the first line says, even if it looks like a data row, it is ignored. */
  lemma HeaderIgnored(h1: string, h2: string, body: string)
    requires '\n' !in h1 && '\n' !in h2
    ensures Segments(h1 + "\n" + body) == Segments(h2 + "\n" + body)
  {
    SplitConcat(h1, body, '\n');
    SplitNoSep(h1, '\n');
    SplitConcat(h2, body, '\n');
    SplitNoSep(h2, '\n');
  }

  /**
   * A header, then N non-blank rows each ended by a newline, yields exactly N
   * segments, one per row and in row order; the empty line after the last
   * newline yields nothing.
   */
  lemma {:induction false} RowsRoundTrip(header: string, rows: seq<string>)
    requires '\n' !in header
    requires forall i :: 0 <= i < |rows| ==> '\n' !in rows[i] && !IsBlank(rows[i])
    ensures Segments(header + "\n" + Join(rows + [""], "\n")) == ParseAll(rows)
  {
    var lines := rows + [""];
    var raw := header + "\n" + Join(lines, "\n");
    assert BodyLines(raw) == lines by {
      SplitNoSep(header, '\n');
      SplitConcat(header, Join(lines, "\n"), '\n');
      SplitJoin(lines, '\n');
      assert Split(raw, '\n') == [header] + lines;
    }
    assert NonBlank(lines) == rows by {
      NonBlankAppend(rows, [""]);
      NonBlankKeepsAll(rows);
      assert NonBlank([""]) == [];
    }
  }

  /** A blank or whitespace-only line anywhere in the body contributes nothing. */
  lemma BlankLineIgnored(before: seq<string>, line: string, after: seq<string>)
    requires IsBlank(line)
    ensures NonBlank(before + [line] + after) == NonBlank(before + after)
  {
    NonBlankAppend(before + [line], after);
    NonBlankAppend(before, [line]);
    NonBlankAppend(before, after);
    assert NonBlank([line]) == [];
  }

  /** A non-blank line yields exactly one segment, at its position among the kept lines. */
  lemma DataLineKept(before: seq<string>, line: string, after: seq<string>)
    requires !IsBlank(line)
    ensures NonBlank(before + [line] + after) == NonBlank(before) + [line] + NonBlank(after)
  {
    NonBlankAppend(before + [line], after);
    NonBlankAppend(before, [line]);
    assert NonBlank([line]) == [line];
  }
}
