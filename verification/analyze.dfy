/**
 * The `POST` handler of the analysis route as a sequence of effects on the
 * file system. The file system, the multipart parser and the whisper process
 * are oracles: each step either succeeds or throws, as the `Oracle` says.
 */
module Analyze {
  import opened Wrappers
  import opened JsString
  import opened Tsv
  import opened Speakers
  import opened Confidence
  import opened Naming

  /** `C:/temp` and `C:/temp/whisper-output`. */
  datatype Dir = TempDir | WhisperOutDir

  /** A file, named by its directory and basename. */
  datatype Path = Path(dir: Dir, name: string)

  /** Whisper's fixed command-line parameters. */
  const WhisperModel: string := "small"
  const WhisperLanguage: string := "en"

  /** An action that took effect, in the order the handler performed it. */
  datatype Effect =
    | MakeDir(dir: Dir)
    | Create(file: Path)
    | RunWhisper(input: Path, model: string, language: string, outDir: Dir)
    | ReadText(file: Path)
    | Unlink(file: Path)

  /** The files present after one effect. */
  function Apply(live: set<Path>, e: Effect): set<Path> {
    match e
    case Create(p) => live + {p}
    case Unlink(p) => live - {p}
    case _ => live
  }

  /** The files present after replaying `trace` from `live`. */
  function LiveFrom(live: set<Path>, trace: seq<Effect>): set<Path>
    decreases |trace|
  {
    if trace == [] then live else LiveFrom(Apply(live, trace[0]), trace[1..])
  }

  /** The files the request created and did not remove. */
  function Live(trace: seq<Effect>): set<Path> {
    LiveFrom({}, trace)
  }

  lemma {:induction false} LiveFromAppend(live: set<Path>, a: seq<Effect>, b: seq<Effect>)
    ensures LiveFrom(live, a + b) == LiveFrom(LiveFrom(live, a), b)
    decreases |a|
  {
    if a == [] {
      assert a + b == b;
    } else {
      assert (a + b)[0] == a[0];
      assert (a + b)[1..] == a[1..] + b;
      LiveFromAppend(Apply(live, a[0]), a[1..], b);
    }
  }

  lemma LiveFromSingle(live: set<Path>, e: Effect)
    ensures LiveFrom(live, [e]) == Apply(live, e)
  {
    assert [e][1..] == [];
  }

  lemma LiveFromSnoc(live: set<Path>, a: seq<Effect>, e: Effect)
    ensures LiveFrom(live, a + [e]) == Apply(LiveFrom(live, a), e)
  {
    LiveFromAppend(live, a, [e]);
    LiveFromSingle(LiveFrom(live, a), e);
  }

  /** The uploaded `audioFile` form field. */
  datatype Upload = Upload(name: string, bytes: seq<bv8>)

  /** `req.formData()` either throws or yields a form whose `audioFile` may be missing. */
  datatype Request = Unparsable | Form(audioFile: Option<Upload>)

  /** `fs.writeFile` either writes the input or throws, possibly after creating the file. */
  datatype WriteOutcome = Written | WriteFailed(leftFile: bool)

  /** The whisper process: its exit status and the table it wrote, if it wrote one. */
  datatype WhisperOutcome = WhisperOutcome(exitOk: bool, table: Option<string>)

  /** How each external step of one request turns out. */
  datatype Oracle = Oracle(
    now: nat,                 // Date.now()
    tempDirOk: bool,          // fs.mkdir('C:/temp')
    write: WriteOutcome,      // file.arrayBuffer() and fs.writeFile(inputPath)
    outDirOk: bool,           // fs.mkdir(outputDir)
    whisper: WhisperOutcome,  // exec(`whisper ...`)
    readOk: bool,             // fs.readFile(transcriptPath) of an existing table
    unlinkTsvOk: bool,        // fs.unlink(transcriptPath)
    unlinkInputOk: bool)      // fs.unlink(inputPath)

  /** The JSON response: `{ score, summary }`, or `{ error }` with a status. */
  datatype Response = Analysis(score: real, summary: string) | Error(status: nat, message: string)

  const NoFile: Response := Error(400, "No file uploaded")
  const Failed: Response := Error(500, "Audio analysis failed")

  /** The response together with the effects that produced it. */
  datatype Run = Run(response: Response, trace: seq<Effect>)

  /** Where the upload is staged. */
  function InputPath(file: Upload, now: nat): Path {
    Path(TempDir, StagedName(now, Ext(file.name)))
  }

  /** Where the route looks for whisper's table. */
  function TablePath(input: Path): Path {
    Path(WhisperOutDir, TsvName(input.name))
  }

  /** What `transcribeAudio` does: it throws, or returns the transcript and segments. */
  datatype Transcription =
    | Threw(trace: seq<Effect>)
    | Transcribed(transcript: string, timestamps: seq<Segment>, trace: seq<Effect>)

  /** `transcribeAudio(input)`. */
  function TranscribeAudio(input: Path, o: Oracle): (t: Transcription)
    ensures t.Transcribed? <==>
      o.outDirOk && o.whisper.exitOk && o.whisper.table.Some? && o.readOk && o.unlinkTsvOk
    ensures t.Transcribed? ==>
      && t.timestamps == Segments(o.whisper.table.value)
      && t.transcript == Transcript(t.timestamps)
  {
    var tsv := TablePath(input);
    if !o.outDirOk then Threw([])
    else
      var ran := [MakeDir(WhisperOutDir), RunWhisper(input, WhisperModel, WhisperLanguage, WhisperOutDir)];
      var wrote := ran + (if o.whisper.table.Some? then [Create(tsv)] else []);
      if !o.whisper.exitOk || o.whisper.table.None? || !o.readOk then Threw(wrote)
      else
        var read := wrote + [ReadText(tsv)];
        if !o.unlinkTsvOk then Threw(read)
        else
          var timestamps := Segments(o.whisper.table.value);
          Transcribed(Transcript(timestamps), timestamps, read + [Unlink(tsv)])
  }

  /** Every step of the handler succeeds. */
  predicate Succeeds(req: Request, o: Oracle) {
    && req.Form? && req.audioFile.Some?
    && o.tempDirOk && o.write.Written? && o.outDirOk
    && o.whisper.exitOk && o.whisper.table.Some? && o.readOk
    && o.unlinkTsvOk && o.unlinkInputOk
  }

  /** The staged input exists at some point: the write succeeded or left a file behind. */
  predicate InputCreated(o: Oracle) {
    o.tempDirOk && (o.write.Written? || o.write.leftFile)
  }

  /**
   * `POST(req)`. `fixed1` stands for `parseFloat(column).toFixed(1)`.
   * A missing file is refused before anything is written; every thrown
   * step answers 500 and skips the removal of the staged input; a success
   * leaves no file behind and scores the flattened transcript, not the summary.
   */
  function Post(req: Request, o: Oracle, fixed1: Option<string> -> string): (run: Run)
    ensures run.response == NoFile <==> req == Form(None)
    ensures req == Form(None) ==> run.trace == []
    ensures run.response.Analysis? <==> Succeeds(req, o)
    ensures run.response.Error? ==> run.response == NoFile || run.response == Failed
    ensures run.response.Analysis? ==>
      var timestamps := Segments(o.whisper.table.value);
      && run.response.summary == LabelSpeakers(timestamps, fixed1)
      && run.response.score == Score(Transcript(timestamps))
  {
    match req
    case Unparsable => Run(Failed, [])
    case Form(None) => Run(NoFile, [])
    case Form(Some(file)) =>
      if !o.tempDirOk then Run(Failed, [])
      else
        var input := InputPath(file, o.now);
        match o.write
        case WriteFailed(left) =>
          Run(Failed, [MakeDir(TempDir)] + (if left then [Create(input)] else []))
        case Written =>
          var staged := [MakeDir(TempDir), Create(input)];
          var t := TranscribeAudio(input, o);
          match t
          case Threw(trace) => Run(Failed, staged + trace)
          case Transcribed(transcript, timestamps, trace) =>
            var summary := LabelSpeakers(timestamps, fixed1);
            var score := Score(transcript);
            if !o.unlinkInputOk then Run(Failed, staged + trace)
            else Run(Analysis(score, summary), staged + trace + [Unlink(input)])
  }

  /**
   * The files a request leaves behind. A success leaves none. Otherwise the
   * staged input stays exactly when it was created, since no failure path
   * removes it, and whisper's table stays when it was written and the request
   * failed before unlinking it. Nothing else is ever left.
   */
  lemma PostFiles(req: Request, o: Oracle, fixed1: Option<string> -> string)
    ensures var run := Post(req, o, fixed1);
      run.response.Analysis? ==> Live(run.trace) == {}
    ensures var run := Post(req, o, fixed1);
      !(req.Form? && req.audioFile.Some?) ==> Live(run.trace) == {}
    ensures var run := Post(req, o, fixed1);
      req.Form? && req.audioFile.Some? ==>
        var input := InputPath(req.audioFile.value, o.now);
        && Live(run.trace) <= {input, TablePath(input)}
        && (input in Live(run.trace) <==> InputCreated(o) && !run.response.Analysis?)
        && (TablePath(input) in Live(run.trace) <==>
              && o.tempDirOk && o.write.Written? && o.outDirOk && o.whisper.table.Some?
              && !(o.whisper.exitOk && o.readOk && o.unlinkTsvOk))
  {
    PostTrace(req, o, fixed1);
    if req.Form? && req.audioFile.Some? && o.tempDirOk {
      var input := InputPath(req.audioFile.value, o.now);
      match o.write
      case WriteFailed(left) =>
        LiveAfterFailedWrite(input, left);
      case Written =>
        LiveAfterStaging(input, o);
    }
  }

  /** The effects of each path through `Post`. */
  lemma PostTrace(req: Request, o: Oracle, fixed1: Option<string> -> string)
    ensures !(req.Form? && req.audioFile.Some? && o.tempDirOk) ==> Post(req, o, fixed1).trace == []
    ensures req.Form? && req.audioFile.Some? && o.tempDirOk ==>
      var input := InputPath(req.audioFile.value, o.now);
      var t := TranscribeAudio(input, o);
      Post(req, o, fixed1).trace == match o.write
        case WriteFailed(left) => [MakeDir(TempDir)] + (if left then [Create(input)] else [])
        case Written =>
          [MakeDir(TempDir), Create(input)] + t.trace
            + (if t.Transcribed? && o.unlinkInputOk then [Unlink(input)] else [])
  {
  }

  /**
   * Once the input is staged, it is removed only on the success path, and the
   * table only when it was read and unlinked.
   */
  lemma LiveAfterStaging(input: Path, o: Oracle)
    requires input.dir == TempDir
    ensures
      var t := TranscribeAudio(input, o);
      var live := Live([MakeDir(TempDir), Create(input)] + t.trace
        + (if t.Transcribed? && o.unlinkInputOk then [Unlink(input)] else []));
      && live <= {input, TablePath(input)}
      && (input in live <==> !(t.Transcribed? && o.unlinkInputOk))
      && (TablePath(input) in live <==> o.outDirOk && o.whisper.table.Some? && !t.Transcribed?)
  {
    var staged := [MakeDir(TempDir), Create(input)];
    var t := TranscribeAudio(input, o);
    LiveAfterTranscription(input, o, staged);
    if t.Transcribed? && o.unlinkInputOk {
      LiveFromSnoc({}, staged + t.trace, Unlink(input));
    } else {
      assert staged + t.trace + [] == staged + t.trace;
    }
  }

  /** A failed write leaves the staged input behind exactly when it created it. */
  lemma LiveAfterFailedWrite(input: Path, left: bool)
    ensures Live([MakeDir(TempDir)] + (if left then [Create(input)] else [])) == if left then {input} else {}
  {
    LiveFromSingle({}, MakeDir(TempDir));
    if left {
      LiveFromSnoc({}, [MakeDir(TempDir)], Create(input));
    } else {
      assert [MakeDir(TempDir)] + [] == [MakeDir(TempDir)];
    }
  }

  /**
   * After `transcribeAudio`, the staged input is still there, and the table
   * is there exactly when whisper wrote it and it was not unlinked.
   */
  lemma LiveAfterTranscription(input: Path, o: Oracle, staged: seq<Effect>)
    requires input.dir == TempDir
    requires staged == [MakeDir(TempDir), Create(input)]
    ensures
      var live := Live(staged + TranscribeAudio(input, o).trace);
      && input in live
      && live <= {input, TablePath(input)}
      && (TablePath(input) in live <==>
            o.outDirOk && o.whisper.table.Some? && !TranscribeAudio(input, o).Transcribed?)
  {
    LiveFromAppend({}, staged, TranscribeAudio(input, o).trace);
    LiveFromSingle({}, MakeDir(TempDir));
    LiveFromSnoc({}, [MakeDir(TempDir)], Create(input));
    assert [MakeDir(TempDir)] + [Create(input)] == staged;
    assert Live(staged) == {input};
    TranscriptionLive(input, o);
  }

  /** What `transcribeAudio` does to the files, starting from the staged input. */
  lemma TranscriptionLive(input: Path, o: Oracle)
    requires input.dir == TempDir
    ensures
      var t := TranscribeAudio(input, o);
      var live := LiveFrom({input}, t.trace);
      && input in live
      && live <= {input, TablePath(input)}
      && (TablePath(input) in live <==> o.outDirOk && o.whisper.table.Some? && !t.Transcribed?)
  {
    var tsv := TablePath(input);
    if o.outDirOk {
      var ran := [MakeDir(WhisperOutDir), RunWhisper(input, WhisperModel, WhisperLanguage, WhisperOutDir)];
      var wrote := ran + (if o.whisper.table.Some? then [Create(tsv)] else []);
      WhisperWroteLive(input, tsv, o.whisper.table.Some?, wrote);
      if o.whisper.exitOk && o.whisper.table.Some? && o.readOk {
        LiveFromSnoc({input}, wrote, ReadText(tsv));
        if o.unlinkTsvOk {
          LiveFromSnoc({input}, wrote + [ReadText(tsv)], Unlink(tsv));
        }
      }
    }
  }

  /** Running whisper adds the table to the staged input exactly when it writes one. */
  lemma WhisperWroteLive(input: Path, tsv: Path, written: bool, wrote: seq<Effect>)
    requires wrote ==
      [MakeDir(WhisperOutDir), RunWhisper(input, WhisperModel, WhisperLanguage, WhisperOutDir)]
        + (if written then [Create(tsv)] else [])
    ensures LiveFrom({input}, wrote) == if written then {input, tsv} else {input}
  {
    var ran := [MakeDir(WhisperOutDir), RunWhisper(input, WhisperModel, WhisperLanguage, WhisperOutDir)];
    var made := if written then [Create(tsv)] else [];
    LiveFromAppend({input}, ran, made);
    LiveFromSingle({input}, MakeDir(WhisperOutDir));
    LiveFromSnoc({input}, [MakeDir(WhisperOutDir)], ran[1]);
    assert [MakeDir(WhisperOutDir)] + [ran[1]] == ran;
    if written {
      LiveFromSingle({input}, Create(tsv));
    }
  }

  /**
   * The effects of a request that succeeds, in order: the table is unlinked
   * right after it is read, and the staged input is unlinked last, before
   * the response.
   */
  lemma SuccessEffects(req: Request, o: Oracle, fixed1: Option<string> -> string)
    requires Succeeds(req, o)
    ensures
      var input := InputPath(req.audioFile.value, o.now);
      var tsv := TablePath(input);
      Post(req, o, fixed1).trace == [
        MakeDir(TempDir), Create(input),
        MakeDir(WhisperOutDir), RunWhisper(input, WhisperModel, WhisperLanguage, WhisperOutDir),
        Create(tsv), ReadText(tsv), Unlink(tsv),
        Unlink(input)]
  {
    var input := InputPath(req.audioFile.value, o.now);
    var t := TranscribeAudio(input, o);
    assert Post(req, o, fixed1).trace == [MakeDir(TempDir), Create(input)] + t.trace + [Unlink(input)] by {
      PostTrace(req, o, fixed1);
    }
    StagedSuccessTrace(input, o);
  }

  lemma StagedSuccessTrace(input: Path, o: Oracle)
    requires TranscribeAudio(input, o).Transcribed?
    ensures
      var tsv := TablePath(input);
      [MakeDir(TempDir), Create(input)] + TranscribeAudio(input, o).trace + [Unlink(input)] == [
        MakeDir(TempDir), Create(input),
        MakeDir(WhisperOutDir), RunWhisper(input, WhisperModel, WhisperLanguage, WhisperOutDir),
        Create(tsv), ReadText(tsv), Unlink(tsv),
        Unlink(input)]
  {
    TranscribedEffects(input, o);
  }

  /** A successful `transcribeAudio` creates, reads and unlinks the table, in that order. */
  lemma TranscribedEffects(input: Path, o: Oracle)
    requires TranscribeAudio(input, o).Transcribed?
    ensures
      var tsv := TablePath(input);
      TranscribeAudio(input, o).trace == [
        MakeDir(WhisperOutDir), RunWhisper(input, WhisperModel, WhisperLanguage, WhisperOutDir),
        Create(tsv), ReadText(tsv), Unlink(tsv)]
  {
  }

  /** A request that fails never unlinks its staged input. */
  lemma FailureKeepsInput(req: Request, o: Oracle, fixed1: Option<string> -> string)
    requires req.Form? && req.audioFile.Some?
    requires !Succeeds(req, o)
    ensures Unlink(InputPath(req.audioFile.value, o.now)) !in Post(req, o, fixed1).trace
  {
    PostTrace(req, o, fixed1);
    var input := InputPath(req.audioFile.value, o.now);
    if o.tempDirOk && o.write.Written? && o.outDirOk {
      var t := TranscribeAudio(input, o);
      assert Unlink(input) !in t.trace;
    }
  }

  /**
   * The leak: when whisper exits with an error after the upload was staged,
   * the handler answers 500 and the staged input stays in the temp directory.
   */
  lemma WhisperFailureLeaksInput(file: Upload, o: Oracle, fixed1: Option<string> -> string)
    requires o.tempDirOk && o.write == Written && o.outDirOk && !o.whisper.exitOk
    ensures
      var run := Post(Form(Some(file)), o, fixed1);
      && run.response == Failed
      && InputPath(file, o.now) in Live(run.trace)
  {
    PostFiles(Form(Some(file)), o, fixed1);
  }

  /**
   * The handler with a release on every failure path added: when a request with a
   * file fails, the catch block also removes the staged input and the table,
   * ignoring a file that is not there (as `fs.rm` with `force` does). The
   * response is unchanged and no file outlives the request.
   */
  function PostReleasing(req: Request, o: Oracle, fixed1: Option<string> -> string): (run: Run)
    ensures run.response == Post(req, o, fixed1).response
    ensures Live(run.trace) == {}
  {
    var r := Post(req, o, fixed1);
    PostFiles(req, o, fixed1);
    match req
    case Form(Some(file)) =>
      if r.response.Analysis? then r
      else
        var input := InputPath(file, o.now);
        ReleaseBoth(r.trace, input, TablePath(input));
        Run(r.response, r.trace + [Unlink(input), Unlink(TablePath(input))])
    case _ => r
  }

  /** Unlinking both files a request may own leaves nothing behind. */
  lemma ReleaseBoth(trace: seq<Effect>, a: Path, b: Path)
    requires Live(trace) <= {a, b}
    ensures Live(trace + [Unlink(a), Unlink(b)]) == {}
  {
    LiveFromSnoc({}, trace, Unlink(a));
    LiveFromSnoc({}, trace + [Unlink(a)], Unlink(b));
    assert trace + [Unlink(a)] + [Unlink(b)] == trace + [Unlink(a), Unlink(b)];
  }
}
