/**
 * A worked example: a two-row whisper table, end to end
 * through the parser, the labeler and the scorer.
 */
module Scenario {
  import opened Wrappers
  import opened JsString
  import opened Tsv
  import opened Speakers
  import opened Confidence

  const Header: string := "start\tend\ttext"
  /** "0.0\t1.5\thello world", kept in its columns. */
  const Row1: string := "0.0" + "\t" + "1.5" + "\t" + "hello world"
  /** "1.5\t3.0\thow are you", kept in its columns. */
  const Row2: string := "1.5" + "\t" + "3.0" + "\t" + "how are you"

  /** The table: the header and both rows, each line ended by a newline. */
  const Table: string := Header + "\n" + Row1 + "\n" + Row2 + "\n"

  /** For these columns `parseFloat(c).toFixed(1)` is the column itself. */
  function Fixed1(col: Option<string>): string {
    col.GetOr("NaN")
  }

  lemma TableLayout()
    ensures Table == Header + "\n" + Join([Row1, Row2] + [""], "\n")
  {
    assert [Row1, Row2] + [""] == [Row1, Row2, ""];
    assert [Row2, ""][1..] == [""];
    assert [Row1, Row2, ""][1..] == [Row2, ""];
    assert Join([Row2, ""], "\n") == Row2 + "\n" + "";
    assert Row2 + "\n" + "" == Row2 + "\n";
    assert Join([Row1, Row2, ""], "\n") == Row1 + "\n" + (Row2 + "\n");
    var a := Header + "\n";
    assert Table == a + Row1 + "\n" + Row2 + "\n";
    assert a + Row1 + "\n" + Row2 + "\n" == a + (Row1 + "\n" + Row2 + "\n");
    assert Row1 + "\n" + Row2 + "\n" == Row1 + "\n" + (Row2 + "\n");
  }

  lemma RowsWellFormed()
    ensures '\n' !in Header
    ensures '\n' !in Row1 && !IsBlank(Row1)
    ensures '\n' !in Row2 && !IsBlank(Row2)
  {
    assert !IsWs(Row1[0]);
    assert !IsWs(Row2[0]);
  }

  lemma RowColumns()
    ensures Row1 == Join(["0.0", "1.5", "hello world"], "\t")
    ensures Row2 == Join(["1.5", "3.0", "how are you"], "\t")
  {
    JoinThree("0.0", "1.5", "hello world", "\t");
    JoinThree("1.5", "3.0", "how are you", "\t");
  }

  lemma JoinThree(x: string, y: string, z: string, sep: string)
    ensures Join([x, y, z], sep) == x + sep + y + sep + z
  {
    assert [x, y, z][1..] == [y, z];
    assert [y, z][1..] == [z];
    assert Join([y, z], sep) == y + sep + z;
    assert x + sep + (y + sep + z) == x + sep + y + sep + z;
  }

  /** The header is dropped and each row becomes one segment. */
  lemma TableRows()
    ensures Segments(Table) == ParseAll([Row1, Row2])
  {
    TableLayout();
    RowsWellFormed();
    RowsRoundTrip(Header, [Row1, Row2]);
  }

  /** Each row's three columns become start, end and text. */
  lemma Row1Parsed()
    ensures ParseLine(Row1) == Segment("0.0", Some("1.5"), Some("hello world"))
  {
    RowColumns();
    ParseLineColumns(["0.0", "1.5", "hello world"]);
  }

  lemma Row2Parsed()
    ensures ParseLine(Row2) == Segment("1.5", Some("3.0"), Some("how are you"))
  {
    RowColumns();
    ParseLineColumns(["1.5", "3.0", "how are you"]);
  }

  lemma ParseTwo(a: string, b: string)
    ensures ParseAll([a, b]) == [ParseLine(a), ParseLine(b)]
  {
  }

  lemma TableSegments()
    ensures Segments(Table) == [
      Segment("0.0", Some("1.5"), Some("hello world")),
      Segment("1.5", Some("3.0"), Some("how are you"))]
  {
    TableRows();
    ParseTwo(Row1, Row2);
    Row1Parsed();
    Row2Parsed();
  }

  /** Two words and three words, joined by a space, are five pieces. */
  lemma {:induction false} FivePieces(a: string, b: string, c: string, d: string, e: string)
    requires IsWord(a) && IsWord(b) && IsWord(c) && IsWord(d) && IsWord(e)
    ensures SplitWs((a + " " + b) + " " + (c + " " + (d + " " + e))) == [a, b, c, d, e]
  {
    var r3 := d + " " + e;
    var r2 := c + " " + r3;
    var r1 := b + " " + r2;
    assert (a + " " + b) + " " + r2 == a + " " + r1;
    SplitWsOfWord(e);
    SplitWsStep(d, e);
    assert r3[0] == d[0];
    SplitWsStep(c, r3);
    assert r2[0] == c[0];
    SplitWsStep(b, r2);
    assert r1[0] == b[0];
    SplitWsStep(a, r1);
    ConsFive(a, b, c, d, e);
  }

  lemma ConsFive<T>(a: T, b: T, c: T, d: T, e: T)
    ensures [a] + ([b] + ([c] + ([d] + [e]))) == [a, b, c, d, e]
  {
  }

  /** Every character is a lower-case letter. */
  predicate Lower(w: string) {
    forall j :: 0 <= j < |w| ==> 'a' <= w[j] <= 'z'
  }

  /** A non-empty run of lower-case letters is a word. */
  lemma LowerIsWord(w: string)
    requires w != [] && Lower(w)
    ensures IsWord(w)
  {
  }

  /** The example's transcript, "hello world how are you", is five words to `split(/\s+/)`. */
  lemma FiveWords()
    ensures |SplitWs("hello world" + " " + "how are you")| == 5
  {
    assert "hello world" == "hello" + " " + "world";
    assert "how are you" == "how" + " " + ("are" + " " + "you");
    LowerIsWord("hello");
    LowerIsWord("world");
    LowerIsWord("how");
    LowerIsWord("are");
    LowerIsWord("you");
    FivePieces("hello", "world", "how", "are", "you");
  }

  lemma TranscriptTwo(a: Segment, b: Segment)
    ensures Transcript([a, b]) == TextOrEmpty(a.text) + " " + TextOrEmpty(b.text)
  {
    var texts := [TextOrEmpty(a.text), TextOrEmpty(b.text)];
    assert Texts([a, b]) == texts;
    assert texts[1..] == [TextOrEmpty(b.text)];
    assert Join(texts, " ") == texts[0] + " " + Join(texts[1..], " ");
  }

  lemma LabelTwo(a: Segment, b: Segment, fixed1: Option<string> -> string)
    ensures LabelSpeakers([a, b], fixed1) == LabelLine(0, a, fixed1) + "\n" + LabelLine(1, b, fixed1)
  {
    var lines := [LabelLine(0, a, fixed1), LabelLine(1, b, fixed1)];
    assert Lines([a, b], fixed1) == lines;
    assert lines[1..] == [LabelLine(1, b, fixed1)];
    assert Join(lines, "\n") == lines[0] + "\n" + Join(lines[1..], "\n");
  }

  /** The flattened transcript holds the texts only, in order. */
  lemma TableTranscript()
    ensures Transcript(Segments(Table)) == "hello world" + " " + "how are you"
  {
    TableSegments();
    TranscriptTwo(Segment("0.0", Some("1.5"), Some("hello world")), Segment("1.5", Some("3.0"), Some("how are you")));
  }

  /** Five words score 5/50. */
  lemma TableScore()
    ensures Score(Transcript(Segments(Table))) == 0.1
  {
    TableTranscript();
    FiveWords();
  }

  /** "Interviewer [0.0-1.5s]: hello world", kept in its parts. */
  const Line1: string := "Interviewer" + " [" + "0.0" + "-" + "1.5" + "s]: " + "hello world"
  /** "Candidate [1.5-3.0s]: how are you", kept in its parts. */
  const Line2: string := "Candidate" + " [" + "1.5" + "-" + "3.0" + "s]: " + "how are you"

  /** A labelled line is assembled from its speaker, its two times and its text. */
  lemma LabelLineParts(idx: nat, t: Segment, fixed1: Option<string> -> string, speaker: string, start: string, end: string, text: string)
    requires Speaker(idx) == speaker
    requires fixed1(Some(t.start)) == start && fixed1(t.end) == end
    requires Render(t.text) == text
    ensures LabelLine(idx, t, fixed1) == speaker + " [" + start + "-" + end + "s]: " + text
  {
  }

  lemma Line1Rendered()
    ensures LabelLine(0, Segment("0.0", Some("1.5"), Some("hello world")), Fixed1) == Line1
  {
    var t := Segment("0.0", Some("1.5"), Some("hello world"));
    LabelLineParts(0, t, Fixed1, "Interviewer", "0.0", "1.5", "hello world");
  }

  lemma Line2Rendered()
    ensures LabelLine(1, Segment("1.5", Some("3.0"), Some("how are you")), Fixed1) == Line2
  {
    var t := Segment("1.5", Some("3.0"), Some("how are you"));
    LabelLineParts(1, t, Fixed1, "Candidate", "1.5", "3.0", "how are you");
  }

  /** The summary alternates speakers line by line. */
  lemma TableSummary()
    ensures LabelSpeakers(Segments(Table), Fixed1) == Line1 + "\n" + Line2
  {
    TableSegments();
    LabelTwo(Segment("0.0", Some("1.5"), Some("hello world")), Segment("1.5", Some("3.0"), Some("how are you")), Fixed1);
    Line1Rendered();
    Line2Rendered();
  }
}
