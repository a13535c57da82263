# Audio analysis route, modelled in Dafny

This project models the audio analysis pipeline behind the `POST` handler of
`app/api/analyze/route.ts`. The handler works like this:

- It stages an uploaded audio file in `C:/temp` as `input-<Date.now()>.<ext>`.
- It runs the `whisper` command-line tool on it (model `small`, language `en`).
- It reads back the tab-separated table whisper writes into
  `C:/temp/whisper-output`, then unlinks it.
- It parses the table into timed segments, and flattens their texts into a transcript.
- It labels the segments alternately as Interviewer and Candidate
  (`labelSpeakers`).
- It scores the transcript by word count (`calculateConfidence`).
- It unlinks the staged input and answers `{ score, summary }`.
- Any thrown step answers `500 Audio analysis failed`. A form without
  `audioFile` answers `400 No file uploaded`.

Modules, following the route's structure:

- `JsString`: the JavaScript string operations the route relies on. These are
  `split` on one character, `Array.prototype.join`, `trim`, and the `\s`
  class, using the ECMAScript white-space and line-terminator set.
- `Tsv`: the table parser inside `transcribeAudio`.
  - A row keeps its first three tab-separated columns.
  - A missing column is `undefined`, modelled as `None`.
- `Speakers`: `labelSpeakers`.
  - `parseFloat(col).toFixed(1)` is a parameter `fixed1`.
  - A template literal renders an absent text as `undefined`.
- `Confidence`: `calculateConfidence`.
  - The word count is `split(/\s+/).length`, which is one more than the number
    of maximal whitespace runs. This is proved against an independent
    run-counting definition and a counting loop.
- `Naming`: the upload's extension, the staged name, and the name of the table
  whisper writes (Node's `path.extname` and `path.basename` for names without
  directory separators).
- `Analyze`: the handler as a trace of file-system effects.
  - The multipart parser, the clock, the file system and the whisper process
    are an `Oracle` that says how each external step turns out.
  - `Live(trace)` is the set of files a request leaves behind.
- `Scenario`: a worked example, a two-row table taken end to end.

Behaviours of the code worth knowing:

- A row with fewer than three columns is kept. It yields a segment whose text
  is absent: an empty word in the transcript, and the word `undefined` in the
  summary.
- The flattened text `hello world how are you` counts five words, so the example
  table scores `0.1` (`Scenario.TableScore`).
- A failed request does not remove the staged input (see Findings).

## Model

| member | source | states |
|---|---|---|
| JsString.Split | app/api/analyze/route.ts:138 | `split` on one character yields one more piece than there are separators, and no piece contains the separator |
| JsString.JoinSplit | app/api/analyze/route.ts:132 | joining the pieces of `split(d)` with `d` gives back the original string, so splitting loses nothing |
| JsString.SplitJoin | app/api/analyze/route.ts:138 | splitting a join of separator-free pieces recovers exactly those pieces |
| JsString.SplitConcat | app/api/analyze/route.ts:132 | splitting `a + d + b` is splitting `a`, then `b`: the header line splits off independently of the body |
| JsString.JoinAppend | app/api/analyze/route.ts:147 | joining two non-empty lists equals joining each and gluing them with the separator |
| JsString.TrimStart | app/api/analyze/route.ts:137 | `trimStart` leaves a suffix of the line, drops only whitespace, and what remains does not start with whitespace |
| JsString.TrimEnd | app/api/analyze/route.ts:137 | `trimEnd` leaves a prefix of the line, drops only whitespace, and what remains does not end with whitespace |
| JsString.Trim | app/api/analyze/route.ts:137 | `trim` never lengthens the line, and what it leaves neither starts nor ends with whitespace |
| JsString.Join | app/api/analyze/route.ts:147 | `join` of a non-empty list starts with the first element, untouched |
| JsString.TrimEmptyIffBlank | app/api/analyze/route.ts:137 | `!line.trim()` holds exactly when every character of the line is whitespace |
| Tsv.ParseLine | app/api/analyze/route.ts:138-143 | a parsed row has no tab in its start or text, has an end whenever it has a text, and has no newline in any field when the line has none |
| Tsv.ParseLineColumns | app/api/analyze/route.ts:138-143 | any row of tab-free fields parses to its first three fields as start, end and text; extra fields are dropped and missing ones are absent, never rejected |
| Tsv.BodyLines | app/api/analyze/route.ts:132 | the lines after the header contain no newline |
| Tsv.NonBlank | app/api/analyze/route.ts:136-137 | the loop keeps at most as many lines as it reads, and never a blank one |
| Tsv.NonBlankAppend | app/api/analyze/route.ts:136-137 | the blank-line filter works line by line: filtering a concatenation is concatenating the filtered parts |
| Tsv.NonBlankSnoc | app/api/analyze/route.ts:136-137 | one more line read adds that line to the kept lines exactly when it is not blank, and nothing else changes |
| Tsv.NonBlankKeepsAll | app/api/analyze/route.ts:136-137 | when no line is blank, the loop keeps every line, in order |
| Tsv.Segments | app/api/analyze/route.ts:132-143 | every segment built from the table lies within one line of it |
| Tsv.ParseTable | app/api/analyze/route.ts:132-147 | the parsing loop builds exactly the segments of the non-blank body lines, one per line, and the transcript as their texts joined by spaces |
| Tsv.HeaderOnly | app/api/analyze/route.ts:132 | a table without a newline, the header alone, yields no segment |
| Tsv.HeaderIgnored | app/api/analyze/route.ts:132 | replacing the first line by any other line leaves the segments unchanged |
| Tsv.RowsRoundTrip | app/api/analyze/route.ts:132-145 | a header followed by N non-blank newline-terminated rows yields exactly the N parsed rows, in order |
| Tsv.BlankLineIgnored | app/api/analyze/route.ts:137 | inserting a blank or whitespace-only line anywhere in the body changes nothing |
| Tsv.DataLineKept | app/api/analyze/route.ts:136-143 | a non-blank line is kept, once, between the lines kept before and after it |
| Tsv.Transcript | app/api/analyze/route.ts:144-147 | the transcript starts with the first segment's text, and one segment's transcript is its text alone, with no separator |
| Tsv.TranscriptAppend | app/api/analyze/route.ts:144-147 | the transcript of two runs of segments is their transcripts separated by one space |
| Speakers.LineHasNoNewline | app/api/analyze/route.ts:165 | a labelled line of a one-line segment contains no newline when the number format emits none |
| Speakers.LabelLine | app/api/analyze/route.ts:164-165 | a line starts with "Interviewer" exactly at even positions and with "Candidate" exactly at odd ones, and ends with ": " and the segment's text |
| Speakers.LabelSpeakers | app/api/analyze/route.ts:161-168 | the summary is empty exactly when there are no segments: every labelled line is non-empty |
| Speakers.SummaryLines | app/api/analyze/route.ts:161-167 | when there are segments, splitting it on newlines gives one line per segment, in order, each with the speaker its position gives and ending with its text |
| Confidence.WordLen | app/api/analyze/route.ts:154 | the leading word is the longest whitespace-free prefix |
| Confidence.WsLen | app/api/analyze/route.ts:154 | the leading separator is the longest whitespace prefix |
| Confidence.SplitWs | app/api/analyze/route.ts:154 | `split(/\s+/)` always yields at least one piece |
| Confidence.SplitWsPiecesHaveNoWs | app/api/analyze/route.ts:154 | no piece of `split(/\s+/)` contains whitespace |
| Confidence.RunsSkipWord | app/api/analyze/route.ts:154 | a run of non-whitespace characters ends any whitespace run and starts none |
| Confidence.RunsSkipSpace | app/api/analyze/route.ts:154 | whitespace that continues a run adds no run |
| Confidence.RunsOfLeadingRun | app/api/analyze/route.ts:154 | a maximal leading whitespace run counts as exactly one run |
| Confidence.RunsAfterFirstRun | app/api/analyze/route.ts:154 | past the first word and the whitespace after it, exactly one run has been counted |
| Confidence.PiecesAreRunsPlusOne | app/api/analyze/route.ts:154 | `split(/\s+/).length` is one more than the number of maximal whitespace runs, leading and trailing runs included |
| Confidence.SplitWsStep | app/api/analyze/route.ts:154 | a word, one space, then text that starts with a non-whitespace character: the word is the first piece and the rest splits on its own |
| Confidence.SplitWsOfWords | app/api/analyze/route.ts:154 | words joined by single spaces split back into exactly those words |
| Confidence.CountWords | app/api/analyze/route.ts:154 | a single left-to-right scan counting run starts computes the same word count as `split(/\s+/).length` |
| Confidence.ScoreOf | app/api/analyze/route.ts:155 | the score lies in [0, 10], is 10 exactly from 500 words on, and is count/50 up to 500 words |
| Confidence.Score | app/api/analyze/route.ts:153-156 | any transcript, even the empty one, scores at least 1/50 and at most 10; it scores 10 exactly when it has at least 500 pieces, and below that it is (runs + 1)/50 |
| Confidence.ScoreMonotone | app/api/analyze/route.ts:155 | more words never lower the score |
| Confidence.EmptyTranscriptScore | app/api/analyze/route.ts:153-155 | an empty transcript still counts one word and scores 1/50, not 0 |
| Naming.Decimal | app/api/analyze/route.ts:187 | `${Date.now()}` is a non-empty string of decimal digits without a leading zero |
| Naming.DecimalRoundTrip | app/api/analyze/route.ts:187 | the digits in the staged name denote exactly the clock value |
| Naming.Ext | app/api/analyze/route.ts:186 | the chosen extension is never empty and never contains a dot |
| Naming.ExtOfDotless | app/api/analyze/route.ts:186 | a name without a dot is its own extension, and the empty name falls back to mp3 |
| Naming.ExtAfterLastDot | app/api/analyze/route.ts:186 | the extension is what follows the last dot, and mp3 exactly when nothing follows it |
| Naming.LastDot | app/api/analyze/route.ts:113 | finds the last dot of a name, or reports that it has none |
| Naming.ExtName | app/api/analyze/route.ts:113 | `path.extname` is empty or a dot-led suffix of the name |
| Naming.StagedNameEncodesClock | app/api/analyze/route.ts:187 | the staged name is `input-`, then decimal digits whose value is the clock reading, then `.` and the extension |
| Naming.TsvNameReplacesExt | app/api/analyze/route.ts:113-127 | the table's name ends in `.tsv`, and putting the staged name's own extension back in its place gives the staged name |
| Naming.StagedTsvName | app/api/analyze/route.ts:113-127 | for a dot-free extension, `path.extname` of the staged name is exactly "." and that extension, and the table read back is `input-<now>.tsv` |
| Naming.UploadTsvName | app/api/analyze/route.ts:186-187 | whatever the uploaded name, the table read back is `input-<now>.tsv`, named after the staged input |
| Analyze.LiveFromAppend | app/api/analyze/route.ts:173-208 | a lemma about the effect model rather than one line of the route: replaying two traces of the handler's effects in sequence leaves the same live files as replaying their concatenation |
| Analyze.TranscribeAudio | app/api/analyze/route.ts:109-147 | transcription succeeds exactly when the output directory, the whisper run, the table, its read and its unlink all succeed; then the segments are those of the table and the transcript is their flattened text |
| Analyze.Post | app/api/analyze/route.ts:173-208 | 400 exactly for a form without a file, before any effect; a response carries an analysis exactly when every step succeeds; any other failure is the uniform 500; the summary labels the table's segments and the score is computed from the flattened transcript, not from the summary |
| Analyze.PostTrace | app/api/analyze/route.ts:173-208 | the effects of each path through the handler: nothing before the temp directory exists, and the input is unlinked only after a successful transcription |
| Analyze.PostFiles | app/api/analyze/route.ts:173-208 | a success leaves no file; a failed request leaves only its staged input and whisper's table; the input stays exactly when it was created and the request failed; the table stays exactly when whisper wrote it and it was not read and unlinked |
| Analyze.LiveAfterStaging | app/api/analyze/route.ts:189-201 | once the input is staged it is removed only on the success path, and the table only when it was read and unlinked |
| Analyze.LiveAfterFailedWrite | app/api/analyze/route.ts:184-189 | a failed write leaves the staged input behind exactly when it created the file |
| Analyze.LiveAfterTranscription | app/api/analyze/route.ts:116-129 | after transcription the staged input still exists, and the table exists exactly when whisper wrote it and transcription failed |
| Analyze.SuccessEffects | app/api/analyze/route.ts:184-201 | a successful request performs exactly eight effects in order: the table is unlinked right after it is read, and the input is unlinked last |
| Analyze.TranscribedEffects | app/api/analyze/route.ts:116-129 | a successful transcription creates, reads and unlinks the table, in that order |
| Analyze.FailureKeepsInput | app/api/analyze/route.ts:200-207 | a request with a file that fails never unlinks its staged input |
| Analyze.WhisperFailureLeaksInput | app/api/analyze/route.ts:119-124 | when whisper exits with an error after staging, the answer is 500 and the staged input is still in the temp directory |
| Analyze.PostReleasing | app/api/analyze/route.ts:205-207 | with the release on failure added, the response is unchanged and no file outlives any request |
| Analyze.ReleaseBoth | app/api/analyze/route.ts:205-207 | unlinking the input and the table after any trace that left at most those two leaves nothing |
| Scenario.TableRows | app/api/analyze/route.ts:132-137 | the example table's header is dropped, and its two rows are kept in order |
| Scenario.Row1Parsed | app/api/analyze/route.ts:138-143 | the first example row parses to start 0.0, end 1.5, text "hello world" |
| Scenario.TableSegments | app/api/analyze/route.ts:132-145 | the example table yields exactly two segments: (0.0, 1.5, "hello world") and (1.5, 3.0, "how are you") |
| Scenario.FivePieces | app/api/analyze/route.ts:154 | two words, a space, then three words, each separated by one space, split into exactly those five words |
| Scenario.FiveWords | app/api/analyze/route.ts:154 | "hello world how are you" has five pieces under `split(/\s+/)` |
| Scenario.TableTranscript | app/api/analyze/route.ts:144-147 | the example's flattened transcript is "hello world", one space, then "how are you" |
| Scenario.TableScore | app/api/analyze/route.ts:153-156 | the example scores 0.1 |
| Scenario.TableSummary | app/api/analyze/route.ts:161-167 | the example's summary is "Interviewer [0.0-1.5s]: hello world", a newline, then "Candidate [1.5-3.0s]: how are you" |

## Left out

- `parseFloat` and `Number.prototype.toFixed`: a segment keeps its timestamp
  columns as text, and the labeller takes the formatter as the parameter
  `fixed1`. Only its freedom from newlines is assumed, as `toFixed` never
  emits one. `Scenario.Fixed1` is the identity on the example's columns,
  which `toFixed(1)` leaves unchanged.
- Confidence.Score: exact rational arithmetic, not IEEE-754 doubles. The
  rounding of `wordCount / 50` is not modelled.
- Confidence.SplitWs: models `split(/\s+/)` with JavaScript's `\s` set on
  UTF-16 code units as Dafny characters. Surrogate pairs are not modelled.
- Naming.ExtName: Node's `path.extname`/`path.basename` rules are modelled
  only for names without directory separators. An upload name whose extension
  contains `/` or `\` is not covered. The staged name never contains one when
  the extension has none.
- `path.join` normalisation and the Windows drive prefix: paths are a
  directory tag plus a basename.
- `Date.now()` is an input (`Oracle.now`). Two requests in the same
  millisecond with the same extension would share a staged name. Concurrency
  between requests is not modelled.
- The whisper process: only its exit status and the TSV table it may have
  written are modelled. The other files it writes into the output directory
  (`.txt`, `.srt`, `.vtt`, `.json`) are not tracked by `Live`. Quoting of the
  path in the shell command is not modelled.
- Directories: `fs.mkdir` with `recursive` is a `MakeDir` effect. `Live`
  tracks files only, and no code path removes a directory.
- `console.error` logging in the catch block and the HTTP response plumbing
  (`NextResponse.json`) are not modelled beyond the status and message.
- The upload's bytes are carried but not inspected. `file.arrayBuffer()`
  failing is a `WriteFailed(false)` outcome.
- Analyze.PostReleasing: assumes its own cleanup removals succeed or find
  nothing to remove, as `fs.rm` with `force` does.
- The commented-out earlier version at the top of the route (lines 1-95),
  `app/api/convert/route.ts` and the browser page are not part of this model.

## Findings

| source | as written | input that shows it | evidently intended | confidence | as-written member | corrected member |
|---|---|---|---|---|---|---|
| app/api/analyze/route.ts:205-207 | the catch block answers 500 without removing the staged input, whose unlink at line 201 runs only on the success path; whisper's table also stays when the read or unlink throws | an upload is staged, then whisper exits non-zero (`tempDirOk`, `Written`, `outDirOk`, `!exitOk`) | every file the request created is removed whether it succeeds or fails | high, not executed | Analyze.WhisperFailureLeaksInput | Analyze.PostReleasing |
