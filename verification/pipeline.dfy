/** The job around the pure steps: the per-clip caption-or-fallback loop of
    both bots, the jobs of both bots (each with the `output/` directory made
    before its clip loop, and as written, without it), and the handlers that
    gate a link or an upload before them. Every external tool is a parameter
    saying whether it succeeds (or what it returns); file names stand for
    paths inside the session directory. */
module Pipeline {
  import opened Common
  import opened Text
  import Paths
  import Segmenter
  import Reframe
  import Subtitles
  import Gates
  import Sanitize

  /** The newer bot (test2.py) or the older one (Telegram.py). */
  datatype Version = Current | Legacy

  /** What the external steps do for one clip: the Whisper result (`None`
      when transcription raises), whether the `.srt` file is written, whether
      the subtitle burn-in exits successfully, whether the final
      `optimize_for_shorts` encode does (newer bot only), and whether the
      fallback step does (`optimize_for_shorts` on the raw clip in the newer
      bot, `cp` in the older one). */
  datatype ClipTools = ClipTools(
    transcript: Option<seq<Subtitles.Segment>>,
    srtOk: bool,
    burnOk: bool,
    optimizeOk: bool,
    fallbackOk: bool)

  /** A delivered file: its name and, for a captioned clip, the subtitle
      file burnt into it. */
  datatype Output = Output(name: string, captions: Option<string>)

  /** The suffix of a captioned clip: `_final.mp4` after the extra encode of
      the newer bot, `_captioned.mp4` in the older one. */
  function CaptionSuffix(v: Version): string
  {
    match v
    case Current => "_final.mp4"
    case Legacy => "_captioned.mp4"
  }

  const FallbackSuffix: string := "_nocaptions.mp4"

  /** Transcription raises outright when the Whisper package is missing. */
  function Transcript(whisper: bool, t: ClipTools): Option<seq<Subtitles.Segment>>
  {
    if whisper then t.transcript else None
  }

  /** The captioned path succeeds when every one of its steps does. */
  predicate CaptionPathOk(v: Version, whisper: bool, t: ClipTools)
  {
    Transcript(whisper, t).Some? && t.srtOk && t.burnOk && (v == Legacy || t.optimizeOk)
  }

  /** One iteration of the clip loop: the `try` block, or on any exception
      in it the fallback; `None` is the fallback's own exception, which
      escapes the loop. */
  function ProcessClip(v: Version, clip: Segmenter.Clip, whisper: bool, t: ClipTools): (r: Option<Output>)
    ensures r.Some? <==> CaptionPathOk(v, whisper, t) || t.fallbackOk
    ensures r.Some? ==> (r.value.captions.Some? <==> CaptionPathOk(v, whisper, t))
    ensures r.Some? && r.value.captions.Some? ==>
      r.value.captions.value == Subtitles.Srt(Transcript(whisper, t).value)
    ensures r.Some? ==>
      r.value.name == Paths.Stem(clip.name) + (if r.value.captions.Some? then CaptionSuffix(v) else FallbackSuffix)
  {
    var stem := Paths.Stem(clip.name);
    if CaptionPathOk(v, whisper, t) then
      Some(Output(stem + CaptionSuffix(v), Some(Subtitles.Srt(t.transcript.value))))
    else if t.fallbackOk then Some(Output(stem + FallbackSuffix, None))
    else None
  }

  /** The loop's outcome: one output per clip, or the index of the clip whose
      fallback raised. */
  datatype LoopResult = Generated(outputs: seq<Output>) | Aborted(at: nat)

  /** Gathers the iterations' results in order, stopping at the first
      exception: the `generated` list, or where the loop was left. */
  function Collect(results: seq<Option<Output>>): (r: LoopResult)
    ensures r.Generated? <==> forall i :: 0 <= i < |results| ==> results[i].Some?
    ensures r.Generated? ==>
      && |r.outputs| == |results|
      && forall i :: 0 <= i < |results| ==> results[i] == Some(r.outputs[i])
    ensures r.Aborted? ==>
      && r.at < |results|
      && results[r.at].None?
      && forall i :: 0 <= i < r.at ==> results[i].Some?
  {
    if results == [] then Generated([])
    else if results[0].None? then Aborted(0)
    else
      var rest := Collect(results[1..]);
      assert forall i :: 1 <= i < |results| ==> results[1..][i - 1] == results[i];
      if rest.Aborted? then Aborted(rest.at + 1)
      else Generated([results[0].value] + rest.outputs)
  }

  /** `for clip_path in clip_paths: ...` with the tools' behaviour for each
      clip. Clips are handled in order; the first clip whose fallback fails
      ends the loop and no later clip is touched. */
  function ClipLoop(v: Version, clips: seq<Segmenter.Clip>, whisper: bool, tools: seq<ClipTools>): (r: LoopResult)
    requires |tools| == |clips|
    ensures r.Generated? <==>
      forall i :: 0 <= i < |clips| ==> ProcessClip(v, clips[i], whisper, tools[i]).Some?
    ensures r.Generated? ==>
      && |r.outputs| == |clips|
      && forall i :: 0 <= i < |clips| ==> ProcessClip(v, clips[i], whisper, tools[i]) == Some(r.outputs[i])
    ensures r.Aborted? ==>
      && r.at < |clips|
      && ProcessClip(v, clips[r.at], whisper, tools[r.at]).None?
      && forall i :: 0 <= i < r.at ==> ProcessClip(v, clips[i], whisper, tools[i]).Some?
  {
    var results := seq(|clips|, i requires 0 <= i < |clips| => ProcessClip(v, clips[i], whisper, tools[i]));
    assert forall i :: 0 <= i < |clips| ==> results[i] == ProcessClip(v, clips[i], whisper, tools[i]);
    Collect(results)
  }

  /** One iteration as the code is written, given whether the session's
      `output/` directory exists; it also returns whether the directory
      exists afterwards. `write_srt` opens its file inside `output/`, which
      fails when the directory is missing; only `burn_subtitles` creates it,
      and that step comes after the write. The fallback writes into
      `output/` as well. With the directory in place the step is
      `ProcessClip`; without it the step always raises. */
  function ProcessClipIn(v: Version, clip: Segmenter.Clip, whisper: bool, t: ClipTools, outputDir: bool): (r: (Option<Output>, bool))
    ensures r.1 == outputDir
    ensures outputDir ==> r.0 == ProcessClip(v, clip, whisper, t)
    ensures !outputDir ==> r.0.None?
  {
    var stem := Paths.Stem(clip.name);
    var transcript := Transcript(whisper, t);
    var srtWritten := transcript.Some? && outputDir && t.srtOk;
    // `burn_subtitles` makes the directory before it runs ffmpeg.
    var dir := outputDir || srtWritten;
    if srtWritten && t.burnOk && (v == Legacy || t.optimizeOk) then
      (Some(Output(stem + CaptionSuffix(v), Some(Subtitles.Srt(transcript.value)))), dir)
    else if dir && t.fallbackOk then (Some(Output(stem + FallbackSuffix, None)), dir)
    else (None, dir)
  }

  /** The clip loop as written, carrying whether `output/` exists from one
      iteration to the next. */
  function ClipLoopIn(v: Version, clips: seq<Segmenter.Clip>, whisper: bool, tools: seq<ClipTools>, outputDir: bool): (r: LoopResult)
    requires |tools| == |clips|
    ensures !outputDir && clips != [] ==> r == Aborted(0)
    decreases |clips|
  {
    if clips == [] then Generated([])
    else
      var step := ProcessClipIn(v, clips[0], whisper, tools[0], outputDir);
      if step.0.None? then Aborted(0)
      else
        var rest := ClipLoopIn(v, clips[1..], whisper, tools[1..], step.1);
        if rest.Aborted? then Aborted(rest.at + 1)
        else Generated([step.0.value] + rest.outputs)
  }

  /** `ClipLoop` handles the first clip, then the rest as a loop of its own. */
  lemma ClipLoopFirst(v: Version, clips: seq<Segmenter.Clip>, whisper: bool, tools: seq<ClipTools>)
    requires |tools| == |clips| && clips != []
    ensures var first := ProcessClip(v, clips[0], whisper, tools[0]);
      var rest := ClipLoop(v, clips[1..], whisper, tools[1..]);
      ClipLoop(v, clips, whisper, tools) ==
        if first.None? then Aborted(0)
        else if rest.Aborted? then Aborted(rest.at + 1)
        else Generated([first.value] + rest.outputs)
  {
    var results := seq(|clips|, i requires 0 <= i < |clips| => ProcessClip(v, clips[i], whisper, tools[i]));
    var tail := seq(|clips| - 1, i requires 0 <= i < |clips| - 1 => ProcessClip(v, clips[1..][i], whisper, tools[1..][i]));
    assert results[1..] == tail;
    assert ClipLoop(v, clips, whisper, tools) == Collect(results);
    assert ClipLoop(v, clips[1..], whisper, tools[1..]) == Collect(tail);
  }

  /** With `output/` made before the loop, the loop as written is `ClipLoop`. */
  lemma {:induction false} ClipLoopInExistingDir(v: Version, clips: seq<Segmenter.Clip>, whisper: bool, tools: seq<ClipTools>)
    requires |tools| == |clips|
    ensures ClipLoopIn(v, clips, whisper, tools, true) == ClipLoop(v, clips, whisper, tools)
    decreases |clips|
  {
    if clips != [] {
      ClipLoopInExistingDir(v, clips[1..], whisper, tools[1..]);
      ClipLoopFirst(v, clips, whisper, tools);
    }
  }

  /** Without Whisper no clip is captioned: everything delivered is the
      uncaptioned fallback. */
  lemma NoWhisperMeansNoCaptions(v: Version, clips: seq<Segmenter.Clip>, tools: seq<ClipTools>)
    requires |tools| == |clips|
    ensures var r := ClipLoop(v, clips, false, tools);
      r.Generated? ==> forall i :: 0 <= i < |r.outputs| ==>
        r.outputs[i].captions.None?
        && r.outputs[i].name == Paths.Stem(clips[i].name) + FallbackSuffix
  {
  }

  /** A digit run followed by a non-digit is recovered from the name: two
      names `pre + digits + tag` agree only when digits and tags agree. */
  lemma DigitRunThenTag(pre: string, a: string, x: string, b: string, y: string)
    requires AllDigits(a) && AllDigits(b)
    requires x != [] && y != [] && !IsDigit(x[0]) && !IsDigit(y[0])
    requires pre + a + x == pre + b + y
    ensures a == b && x == y
  {
    var s := pre + a + x;
    var t := pre + b + y;
    if |a| != |b| {
      assert false;
    }
    assert s[|pre|..|pre| + |a|] == a;
    assert t[|pre|..|pre| + |b|] == b;
    assert s[|pre| + |a|..] == x;
    assert t[|pre| + |b|..] == y;
  }

  /** The output name of part `i` under either suffix. */
  lemma PartOutputName(base: string, i: nat, width: nat, suffix: string)
    ensures Paths.Stem(Segmenter.PartName(base, i, width)) + suffix
      == (base + "_part") + ZeroPad(i + 1, width) + suffix
  {
    Segmenter.PartNameStem(base, i, width);
  }

  /** Two different part numbers followed by tags that start with a
      non-digit give different names. */
  lemma TaggedPartsDistinct(base: string, i: nat, j: nat, width: nat, si: string, sj: string)
    requires i != j
    requires si != [] && sj != [] && !IsDigit(si[0]) && !IsDigit(sj[0])
    ensures (base + "_part") + ZeroPad(i + 1, width) + si != (base + "_part") + ZeroPad(j + 1, width) + sj
  {
    var a := ZeroPad(i + 1, width);
    var b := ZeroPad(j + 1, width);
    if (base + "_part") + a + si == (base + "_part") + b + sj {
      DigitRunThenTag(base + "_part", a, si, b, sj);
      ZeroPadInjective(i + 1, j + 1, width);
    }
  }

  /** Outputs of different parts never share a file name, whichever of the
      two suffixes each got, so no delivered file overwrites another. */
  lemma PartOutputsDistinct(v: Version, base: string, i: nat, j: nat, width: nat, ci: bool, cj: bool)
    requires i != j
    ensures var si := if ci then CaptionSuffix(v) else FallbackSuffix;
      var sj := if cj then CaptionSuffix(v) else FallbackSuffix;
      Paths.Stem(Segmenter.PartName(base, i, width)) + si
        != Paths.Stem(Segmenter.PartName(base, j, width)) + sj
  {
    var si := if ci then CaptionSuffix(v) else FallbackSuffix;
    var sj := if cj then CaptionSuffix(v) else FallbackSuffix;
    PartOutputName(base, i, width, si);
    PartOutputName(base, j, width, sj);
    TaggedPartsDistinct(base, i, j, width, si, sj);
  }

  /** Whatever the tools do, the outputs of a cut video have pairwise
      different names. */
  lemma GeneratedNamesDistinct(v: Version, base: string, ws: seq<Segmenter.Window>, width: nat, whisper: bool, tools: seq<ClipTools>)
    requires |tools| == |ws|
    ensures var r := ClipLoop(v, Segmenter.NamePlan(base, ws, width), whisper, tools);
      r.Generated? ==> forall i, j :: 0 <= i < j < |r.outputs| ==> r.outputs[i].name != r.outputs[j].name
  {
    var clips := Segmenter.NamePlan(base, ws, width);
    var r := ClipLoop(v, clips, whisper, tools);
    if r.Generated? {
      forall i, j | 0 <= i < j < |r.outputs|
        ensures r.outputs[i].name != r.outputs[j].name
      {
        PartOutputsDistinct(v, base, i, j, width, r.outputs[i].captions.Some?, r.outputs[j].captions.Some?);
      }
    }
  }

  /** Why a job ended without delivering. */
  datatype Failure =
    | DownloadFailed
    | InvalidFile(verdict: Gates.Verdict)
    | ConvertFailed
    | ProbeFailed
    | CutFailed
    | NoClips
    | ClipFailed(index: nat)

  /** A message turned away before any work (a bad link or an oversized
      upload), a job that failed with the error shown to the user, or the
      clips delivered. */
  datatype Outcome = Rejected | Failed(reason: Failure) | Delivered(outputs: seq<Output>)

  /** What the external tools do during one job:
      - `convert`: the newer bot's conversion steps;
      - `legacyConvertOk`, `frame`: whether the older bot's single encode
        succeeds, and the frame size ffmpeg decodes from the input;
      - `duration`: the duration probe of the converted file (`None` when it raises);
      - `cutsOk`: whether every copy `split_into_clips` makes succeeds, the
        ffmpeg cuts and the `cp` of the whole-video branch alike;
      - `whisper`: whether Whisper is installed;
      - `clipTools`: the per-clip behaviour indexed by clip position. */
  datatype JobTools = JobTools(
    convert: Reframe.ConvertTools,
    legacyConvertOk: bool,
    frame: Reframe.Dimensions,
    duration: Option<nat>,
    cutsOk: bool,
    whisper: bool,
    clipTools: nat -> ClipTools)

  /** `f"{input_video.stem}_9_16.mp4"`: the converted file's name. */
  function ConvertedName(input: string): string
  {
    Paths.Stem(input) + "_9_16.mp4"
  }

  /** The stem `split_into_clips` sees is the input's stem with `_9_16`. */
  lemma ConvertedStem(input: string)
    ensures Paths.Stem(ConvertedName(input)) == Paths.Stem(input) + "_9_16"
  {
    assert ConvertedName(input) == (Paths.Stem(input) + "_9_16") + ".mp4";
    Paths.StemOfMp4(Paths.Stem(input) + "_9_16");
  }

  function ToolsFor(clips: seq<Segmenter.Clip>, t: JobTools): (ts: seq<ClipTools>)
    ensures |ts| == |clips|
  {
    seq(|clips|, i requires 0 <= i < |clips| => t.clipTools(i))
  }

  /** The clip loop's result as a job outcome. */
  function Finish(r: LoopResult): Outcome
  {
    match r
    case Generated(os) => Delivered(os)
    case Aborted(i) => Failed(ClipFailed(i))
  }

  /** Where a job stands once every step before the clip loop has run:
      stopped with an outcome, or holding the clips to caption. */
  datatype Stage = Stopped(outcome: Outcome) | Cut(clips: seq<Segmenter.Clip>)

  /** The newer bot's steps before the clip loop: convert, probe, split at
      50 seconds, cut, and refuse an empty plan. A job that reaches the loop
      has a non-empty plan of the converted file's stem. */
  function CurrentStage(input: string, t: JobTools): (s: Stage)
    ensures s.Cut? <==>
      Reframe.ConvertEnhanced(input, ConvertedName(input), Reframe.TargetHeight, t.convert).succeeded
      && t.duration.Some? && t.cutsOk
    ensures s.Cut? ==>
      && s.clips != []
      && s.clips == Segmenter.SplitPlan(Paths.Stem(input) + "_9_16", t.duration.value, Segmenter.MaxClipMs).value
    ensures s.Stopped? ==> s.outcome.Failed? && s.outcome.reason in {ConvertFailed, ProbeFailed, CutFailed}
  {
    var conversion := Reframe.ConvertEnhanced(input, ConvertedName(input), Reframe.TargetHeight, t.convert);
    if !conversion.succeeded then Stopped(Failed(ConvertFailed))
    else if t.duration.None? then Stopped(Failed(ProbeFailed))
    else
      // The plan is `None` only for a zero maximum (the ZeroDivisionError),
      // which the fixed 50-second maximum rules out; for the same reason the
      // empty-plan guard never fires.
      ConvertedStem(input);
      Segmenter.SplitPlanNonEmpty(Paths.Stem(ConvertedName(input)), t.duration.value, Segmenter.MaxClipMs);
      match Segmenter.SplitPlan(Paths.Stem(ConvertedName(input)), t.duration.value, Segmenter.MaxClipMs)
      case Some(clips) =>
        if !t.cutsOk then Stopped(Failed(CutFailed))
        else if clips == [] then Stopped(Failed(NoClips))
        else Cut(clips)
  }

  /** `process_video_file` of the newer bot with the `output/` directory in
      place before the clip loop: the steps before the loop, then caption
      every clip. Sending the clips and the summary message are left out. */
  function ProcessVideoFile(input: string, t: JobTools): (o: Outcome)
    ensures o != Rejected
    ensures o.Delivered? ==> Reframe.ConvertEnhanced(input, ConvertedName(input), Reframe.TargetHeight, t.convert).succeeded
    ensures o.Delivered? ==> t.duration.Some? && t.cutsOk && o.outputs != []
    ensures o == Failed(ConvertFailed) <==> !Reframe.ConvertEnhanced(input, ConvertedName(input), Reframe.TargetHeight, t.convert).succeeded
    ensures o == Failed(ProbeFailed) <==>
      Reframe.ConvertEnhanced(input, ConvertedName(input), Reframe.TargetHeight, t.convert).succeeded && t.duration.None?
    ensures o == Failed(CutFailed) <==>
      Reframe.ConvertEnhanced(input, ConvertedName(input), Reframe.TargetHeight, t.convert).succeeded
      && t.duration.Some? && !t.cutsOk
    ensures o != Failed(NoClips)
  {
    match CurrentStage(input, t)
    case Stopped(o) => o
    case Cut(clips) => Finish(ClipLoop(Current, clips, t.whisper, ToolsFor(clips, t)))
  }

  /** `process_video_file` as written: nothing creates `output/` before the
      first clip's `write_srt`, so a job that reaches the clip loop fails on
      its first clip, and no job delivers. Every job the corrected version
      delivers ends here with the first clip's error; the others end alike. */
  function ProcessVideoFileAsWritten(input: string, t: JobTools): (o: Outcome)
    ensures !o.Delivered?
    ensures ProcessVideoFile(input, t).Delivered? ==> o == Failed(ClipFailed(0))
    ensures o == (if CurrentStage(input, t).Cut? then Failed(ClipFailed(0)) else ProcessVideoFile(input, t))
  {
    match CurrentStage(input, t)
    case Stopped(o) => o
    case Cut(clips) => Finish(ClipLoopIn(Current, clips, t.whisper, ToolsFor(clips, t), false))
  }

  /** With the fixed 50-second maximum the plan is never empty, so a job
      that gets through conversion, probe and cuts is decided by its clips
      alone: it delivers one output per planned clip, named after it, unless
      some clip's fallback fails. */
  lemma ProcessVideoFileClips(input: string, t: JobTools)
    requires Reframe.ConvertEnhanced(input, ConvertedName(input), Reframe.TargetHeight, t.convert).succeeded
    requires t.duration.Some? && t.cutsOk
    ensures var clips := Segmenter.SplitPlan(Paths.Stem(input) + "_9_16", t.duration.value, Segmenter.MaxClipMs).value;
      && clips != []
      && ProcessVideoFile(input, t) == Finish(ClipLoop(Current, clips, t.whisper, ToolsFor(clips, t)))
  {
    ConvertedStem(input);
    Segmenter.SplitPlanNonEmpty(Paths.Stem(input) + "_9_16", t.duration.value, Segmenter.MaxClipMs);
  }

  /** A video longer than one clip is delivered as part files with pairwise
      different names, one per 50-second window. */
  lemma ProcessVideoFileLongVideo(input: string, t: JobTools)
    requires t.duration.Some? && t.duration.value > Segmenter.MaxClipMs
    ensures var o := ProcessVideoFile(input, t);
      o.Delivered? ==>
        && |o.outputs| == Segmenter.CeilDiv(t.duration.value, Segmenter.MaxClipMs)
        && forall i, j :: 0 <= i < j < |o.outputs| ==> o.outputs[i].name != o.outputs[j].name
  {
    var o := ProcessVideoFile(input, t);
    if o.Delivered? {
      var d := t.duration.value;
      var stem := Paths.Stem(input) + "_9_16";
      ProcessVideoFileClips(input, t);
      var base := Sanitize.SanitizeFilename(stem);
      var ws := Segmenter.Windows(d, Segmenter.MaxClipMs);
      var clips := Segmenter.NamePlan(base, ws, 2);
      assert Segmenter.SplitPlan(stem, d, Segmenter.MaxClipMs) == Some(clips);
      var r := ClipLoop(Current, clips, t.whisper, ToolsFor(clips, t));
      assert o == Finish(r);
      GeneratedNamesDistinct(Current, base, ws, 2, t.whisper, ToolsFor(clips, t));
    }
  }

  /** `process_video_url` of the newer bot: the link check on the stripped
      text, then `download_with_ytdlp`, which fails when yt-dlp leaves no file
      (`None`) and validates the file it found, then the job. */
  function HandleUrl(text: string, downloaded: Option<string>, facts: Gates.FileFacts, t: JobTools): (o: Outcome)
    ensures !Gates.UrlAccepted(text) <==> o == Rejected
    ensures Gates.UrlAccepted(text) && downloaded.None? ==> o == Failed(DownloadFailed)
    ensures Gates.UrlAccepted(text) && downloaded.Some? && Gates.ValidateVideoFile(facts) != Gates.Valid
      ==> o == Failed(InvalidFile(Gates.ValidateVideoFile(facts)))
    ensures Gates.UrlAccepted(text) && downloaded.Some? && Gates.ValidateVideoFile(facts) == Gates.Valid
      ==> o == ProcessVideoFile(downloaded.value, t)
    ensures o.Delivered? ==>
      && downloaded.Some?
      && Gates.ValidateVideoFile(facts) == Gates.Valid
      && o == ProcessVideoFile(downloaded.value, t)
  {
    if !Gates.UrlAccepted(text) then Rejected
    else if downloaded.None? then Failed(DownloadFailed)
    else
      var verdict := Gates.ValidateVideoFile(facts);
      if verdict != Gates.Valid then Failed(InvalidFile(verdict))
      else ProcessVideoFile(downloaded.value, t)
  }

  /** `handle_video_file` of the newer bot: the 50 MB check on the reported
      size, the download to `{file_id}.mp4`, validation, then the job. */
  function HandleUpload(fileSize: nat, fileId: string, downloadOk: bool, facts: Gates.FileFacts, t: JobTools): (o: Outcome)
    ensures !Gates.UploadAccepted(fileSize) <==> o == Rejected
    ensures o.Delivered? ==>
      && fileSize <= Gates.MaxUploadBytes
      && downloadOk
      && Gates.ValidateVideoFile(facts) == Gates.Valid
      && o == ProcessVideoFile(fileId + ".mp4", t)
    ensures Gates.UploadAccepted(fileSize) && !downloadOk ==> o == Failed(DownloadFailed)
    ensures Gates.UploadAccepted(fileSize) && downloadOk && Gates.ValidateVideoFile(facts) != Gates.Valid
      ==> o == Failed(InvalidFile(Gates.ValidateVideoFile(facts)))
    ensures Gates.UploadAccepted(fileSize) && downloadOk && Gates.ValidateVideoFile(facts) == Gates.Valid
      ==> o == ProcessVideoFile(fileId + ".mp4", t)
  {
    if !Gates.UploadAccepted(fileSize) then Rejected
    else if !downloadOk then Failed(DownloadFailed)
    else
      var verdict := Gates.ValidateVideoFile(facts);
      if verdict != Gates.Valid then Failed(InvalidFile(verdict))
      else ProcessVideoFile(fileId + ".mp4", t)
  }

  /** The job never reports a validation verdict: those come from the
      handlers alone. `UploadNeverTooLarge` uses it for the job an upload
      hands on. */
  lemma JobReportsNoVerdict(input: string, t: JobTools)
    ensures !ProcessVideoFile(input, t).Failed? || !ProcessVideoFile(input, t).reason.InvalidFile?
  {
  }

  /** The two size limits agree in one direction: an upload the 50 MB check
      admits, whose file on disk has the size Telegram reported, is never
      refused by validation as too large. */
  lemma UploadNeverTooLarge(fileSize: nat, fileId: string, downloadOk: bool, facts: Gates.FileFacts, t: JobTools)
    requires facts.size == Some(fileSize)
    ensures var o := HandleUpload(fileSize, fileId, downloadOk, facts, t);
      !(o.Failed? && o.reason.InvalidFile? && o.reason.verdict.TooLarge?)
  {
    JobReportsNoVerdict(fileId + ".mp4", t);
  }

  /** Whitespace around a link changes nothing about how it is handled. */
  lemma HandleUrlIgnoresPadding(a: string, text: string, b: string, downloaded: Option<string>, facts: Gates.FileFacts, t: JobTools)
    requires AllSpace(a) && AllSpace(b)
    ensures HandleUrl(a + text + b, downloaded, facts, t) == HandleUrl(text, downloaded, facts, t)
  {
    Gates.UrlAcceptedIgnoresPadding(a, text, b);
  }

  /** The input that shows the missing directory: a job whose conversion,
      probe and cuts succeed and whose clips all have a working fallback is
      delivered once `output/` exists, and fails on its first clip as written. */
  lemma MissingOutputDirLosesJob(input: string, t: JobTools)
    requires Reframe.ConvertEnhanced(input, ConvertedName(input), Reframe.TargetHeight, t.convert).succeeded
    requires t.duration.Some? && t.cutsOk
    requires forall i :: t.clipTools(i).fallbackOk
    ensures ProcessVideoFile(input, t).Delivered?
    ensures ProcessVideoFileAsWritten(input, t) == Failed(ClipFailed(0))
  {
    var clips := CurrentStage(input, t).clips;
    var tools := ToolsFor(clips, t);
    assert forall i :: 0 <= i < |clips| ==> tools[i].fallbackOk;
  }

  /** The older bot's steps before the clip loop: `convert_to_9_16`, the
      probe, and the split with no empty-plan check. A job that reaches the
      loop has one clip per 50-second window of the converted file. */
  function LegacyStage(input: string, t: JobTools): (s: Stage)
    ensures s.Cut? <==> t.legacyConvertOk && t.duration.Some? && (t.cutsOk || t.duration.value == 0)
    ensures s.Cut? ==>
      && s.clips == Segmenter.LegacySplitPlan(Paths.Stem(input) + "_9_16", t.duration.value, Segmenter.MaxClipMs).value
      && |s.clips| == Segmenter.CeilDiv(t.duration.value, Segmenter.MaxClipMs)
    ensures s.Stopped? ==> s.outcome.Failed? && s.outcome.reason in {ConvertFailed, ProbeFailed, CutFailed}
  {
    var conversion := Reframe.ConvertLegacy(input, ConvertedName(input), Reframe.TargetHeight, t.frame, t.legacyConvertOk);
    if !conversion.succeeded then Stopped(Failed(ConvertFailed))
    else if t.duration.None? then Stopped(Failed(ProbeFailed))
    else
      ConvertedStem(input);
      // As in the newer bot, only a zero maximum makes the plan `None`.
      match Segmenter.LegacySplitPlan(Paths.Stem(ConvertedName(input)), t.duration.value, Segmenter.MaxClipMs)
      case Some(clips) =>
        // With no window the loop runs no ffmpeg cut at all.
        if !t.cutsOk && clips != [] then Stopped(Failed(CutFailed))
        else Cut(clips)
  }

  /** The older bot's shared job body with the `output/` directory in place
      before the clip loop: the steps before the loop, then the
      caption-or-copy loop. */
  function LegacyProcess(input: string, t: JobTools): (o: Outcome)
    ensures o != Rejected && o != Failed(NoClips) && o != Failed(DownloadFailed)
    ensures o == Failed(ConvertFailed) <==> !t.legacyConvertOk
    ensures o == Failed(ProbeFailed) <==> t.legacyConvertOk && t.duration.None?
    ensures o == Failed(CutFailed) <==> t.legacyConvertOk && t.duration.Some? && t.duration.value > 0 && !t.cutsOk
    ensures o.Delivered? ==>
      && t.legacyConvertOk && t.duration.Some?
      && (t.cutsOk || t.duration.value == 0)
      && |o.outputs| == Segmenter.CeilDiv(t.duration.value, Segmenter.MaxClipMs)
  {
    match LegacyStage(input, t)
    case Stopped(o) => o
    case Cut(clips) => Finish(ClipLoop(Legacy, clips, t.whisper, ToolsFor(clips, t)))
  }

  /** The older job as written: as in the newer bot, `output/` does not
      exist when the first clip's `write_srt` runs, so the job delivers only
      when there is no clip at all (a zero-length video). */
  function LegacyProcessAsWritten(input: string, t: JobTools): (o: Outcome)
    ensures o.Delivered? ==> o.outputs == []
    ensures LegacyProcess(input, t).Delivered? && LegacyProcess(input, t).outputs != [] ==> o == Failed(ClipFailed(0))
    ensures o == (if LegacyStage(input, t).Cut? && LegacyStage(input, t).clips != [] then Failed(ClipFailed(0)) else LegacyProcess(input, t))
  {
    match LegacyStage(input, t)
    case Stopped(o) => o
    case Cut(clips) => Finish(ClipLoopIn(Legacy, clips, t.whisper, ToolsFor(clips, t), false))
  }

  /** Once the encode and the probe succeed, and the cuts too whenever there
      is something to cut, the older job is decided by its clip loop: one
      caption-or-copy result per 50-second window, in order, named
      `{stem}_9_16_partNNN`. */
  lemma LegacyProcessClips(input: string, t: JobTools)
    requires t.legacyConvertOk && t.duration.Some? && (t.cutsOk || t.duration.value == 0)
    ensures var clips := Segmenter.LegacySplitPlan(Paths.Stem(input) + "_9_16", t.duration.value, Segmenter.MaxClipMs).value;
      && |clips| == Segmenter.CeilDiv(t.duration.value, Segmenter.MaxClipMs)
      && LegacyProcess(input, t) == Finish(ClipLoop(Legacy, clips, t.whisper, ToolsFor(clips, t)))
  {
    ConvertedStem(input);
  }

  /** The older bot reports success with nothing to send for a zero-length
      video, where the newer one always has its single `_full` clip. */
  lemma LegacyEmptyVideoDeliversNothing(input: string, t: JobTools)
    requires t.legacyConvertOk && t.duration == Some(0)
    ensures LegacyProcess(input, t) == Delivered([])
    ensures Reframe.ConvertEnhanced(input, ConvertedName(input), Reframe.TargetHeight, t.convert).succeeded ==>
      ProcessVideoFile(input, t).Delivered? ==> |ProcessVideoFile(input, t).outputs| == 1
  {
    var stem := Paths.Stem(ConvertedName(input));
    assert Segmenter.CeilDiv(0, Segmenter.MaxClipMs) == 0;
    assert Segmenter.SplitPlan(stem, 0, Segmenter.MaxClipMs) == Some([Segmenter.Clip(stem + "_full.mp4", Segmenter.Window(0, 0, 0))]);
  }

  /** `process_video_url` of the older bot: no link check, only the download. */
  function LegacyHandleUrl(downloaded: Option<string>, t: JobTools): (o: Outcome)
    ensures o != Rejected
    ensures downloaded.None? <==> o == Failed(DownloadFailed)
    ensures downloaded.Some? ==> o == LegacyProcess(downloaded.value, t)
  {
    if downloaded.None? then Failed(DownloadFailed)
    else LegacyProcess(downloaded.value, t)
  }

  /** `handle_video_file` of the older bot: no size check and no validation. */
  function LegacyHandleUpload(fileId: string, downloadOk: bool, t: JobTools): (o: Outcome)
    ensures o != Rejected
    ensures !downloadOk <==> o == Failed(DownloadFailed)
    ensures downloadOk ==> o == LegacyProcess(fileId + ".mp4", t)
  {
    if !downloadOk then Failed(DownloadFailed)
    else LegacyProcess(fileId + ".mp4", t)
  }
}
