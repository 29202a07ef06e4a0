# telegram-shorts-bot in Dafny

A model of the two Telegram bots of telegram-shorts-bot. Each bot takes a
video link or an uploaded video file and turns it into vertical 9:16 clips
of at most 50 seconds with burnt-in captions:

- `test2.py` is the newer bot.
- `Telegram.py` is the older one.

The model covers the decisions the bots make on their way:

- **Sanitize.** `sanitize_filename`: the base name, with unsafe characters replaced, cut to 100 characters.
- **Gates.** The guards around the expensive work:
  - `validate_video_file`: existence, then the 500 MB size limit, then the one-hour duration limit.
  - The newer bot's `^https?://` link check.
  - Its 50 MB upload limit.
  - The age test and stop-on-first-error behaviour of `cleanup_old_files`.
- **Reframe.** The 9:16 conversion:
  - The newer bot chooses crop, pad or blurred background from the aspect ratio, with the simple fit-and-pad encode as fallback.
  - The older bot chooses between width and height as the scaled axis.
- **Segmenter.** `split_into_clips` of both bots as a plan of named windows:
  - the newer bot's whole-video shortcut and sanitised, two-digit part names;
  - the older bot's unconditional cut with three-digit part names.
- **Subtitles.** `fmt_time` and `write_srt` of both bots: SubRip text built block by block.
- **Pipeline.** The jobs themselves:
  - The per-clip caption-or-fallback loops of both bots.
  - `process_video_file` of the newer bot and the older bot's job body, each both as written and with the session's `output/` directory made before the clip loop (see Findings).
  - The link and upload handlers of both bots.
- **Paths, Text, Common.** Shared vocabulary:
  - `os.path.basename`, `PurePath.stem`;
  - Python's decimal and zero-padded number formatting;
  - `str.strip()` with Python's exact set of whitespace characters;
  - an `Option` type.

Conventions:

- **Time.** Durations and timestamps are whole milliseconds (`nat`).
- **Clip length.** The 50-second maximum is `Segmenter.MaxClipMs` = 50000.
- **Aspect ratios.** Thresholds are compared exactly by cross-multiplication. The lemmas `SelectStrategyByRatio` and `LegacyAxisByRatio` tie these to the source's real-valued ratios.
- **External programs.** ffmpeg, ffprobe, yt-dlp, Whisper and Telegram's file download are parameters. Each says whether the step succeeds, or what it returns. `None` stands for a step that raised.
- **Encodes.** A conversion records which encodes were attempted and with which filter kind.

## Model

| member | source | states |
|---|---|---|
| Text.Decimal | test2.py:242 | the block number `str(i)` has only digits and no leading zero |
| Text.DecimalRoundTrip | test2.py:242 | reading back the digits `str(n)` writes gives `n` again |
| Text.ZeroPad | test2.py:235 | `{n:02d}`: digits only, exactly max(width, digit count) characters, so wider numbers are not cut |
| Text.ZeroPadRoundTrip | test2.py:235 | zero padding loses no information: the padded digits read back as the number |
| Text.ZeroPadInjective | test2.py:181 | two numbers get the same padded rendering if and only if they are equal |
| Text.ZeroPadWidth | test2.py:231-235 | minutes and seconds (below 100) take exactly 2 characters and milliseconds (below 1000) exactly 3 |
| Text.IsSpace | test2.py:320 | Python's whitespace characters for `str.strip()`; `Text.StripIsSlice` and `Text.StripIgnoresPadding` carry its contract |
| Text.TrimStart | test2.py:320 | `lstrip`: a suffix of the input, only whitespace removed before it, and it starts with a non-space |
| Text.TrimEnd | test2.py:320 | `rstrip`: a prefix of the input, only whitespace removed after it, and it ends with a non-space |
| Text.Strip | test2.py:320 | the stripped text neither starts nor ends with whitespace |
| Text.StripIsSlice | test2.py:320 | what `strip()` keeps is one contiguous slice, with only whitespace before and after it |
| Text.StripIgnoresPadding | test2.py:320 | whitespace added on either side does not change the stripped text |
| Text.StripIdempotent | test2.py:241 | stripping twice gives the same as stripping once |
| Paths.Basename | test2.py:36 | `os.path.basename`: a suffix without '/', preceded by a '/' whenever something was dropped |
| Paths.BasenameOfPlainName | test2.py:36 | a name without '/' is its own base name |
| Paths.BasenameAfterSlash | test2.py:36 | the base name of a directory path plus a plain name is that name |
| Paths.LastDot | test2.py:398 | the index of the last '.', or -1 when there is none |
| Paths.Stem | test2.py:398 | `.stem`: a prefix of the name; it differs from the name if and only if the last dot is neither the first nor the last character, and then it is everything before that dot, with no dot after it |
| Paths.StemOfMp4 | test2.py:416 | `clip_path.stem` of `x.mp4` recovers the name `x` the clip was written under |
| Sanitize.IsSafeChar | test2.py:36 | the class `[a-zA-Z0-9\-_\.]`; `Sanitize.ReplaceUnsafe` and `Sanitize.SanitizeFixedPoint` carry its contract |
| Sanitize.ReplaceUnsafe | test2.py:36 | one output character per input character: kept exactly when safe, '_' otherwise |
| Sanitize.Truncate | test2.py:37 | `s[:100]`: a prefix of length min(\|s\|, 100) |
| Sanitize.SanitizeFilename | test2.py:33-37 | the result has only safe characters and no '/', is a prefix of the cleaned base name, and has length min(base-name length, 100) |
| Sanitize.SanitizeFixedPoint | test2.py:33-37 | a name is left unchanged if and only if it is all safe characters and at most 100 long |
| Sanitize.SanitizeIdempotent | test2.py:33-37 | sanitising a sanitised name changes nothing |
| Sanitize.SanitizeDropsDirectories | test2.py:34-36 | `../../etc/passwd` becomes `passwd`: the directory part of a traversal is discarded |
| Sanitize.SanitizeKeepsDotDot | test2.py:36-37 | `..` is made of safe characters and survives unchanged |
| Segmenter.CeilDiv | test2.py:175 | `math.ceil(d / m)`: the least count of m-long windows that covers d; zero only for d = 0 |
| Segmenter.WindowBounds | test2.py:178-180 | every loop iteration starts inside the video; its length is positive and at most m; it is exactly m except in the last iteration, which ends at d |
| Segmenter.WindowAt | test2.py:178-180 | the start and length of loop iteration i; `Segmenter.WindowBounds` carries its contract |
| Segmenter.Windows | test2.py:175-180 | there are `ceil(d / m)` windows |
| Segmenter.WindowsPrefixLength | test2.py:178-180 | the first k windows cover min(d, k·m) milliseconds |
| Segmenter.WindowsConsecutive | test2.py:178-180 | window i starts at i·m, each starts where the previous ends, and the last ends at d |
| Segmenter.WindowsDisjoint | test2.py:178-180 | no two windows overlap |
| Segmenter.WindowsPartition | test2.py:175-191 | the windows tile [0, d): numbered, non-empty, at most m, contiguous, disjoint, lengths summing to d; empty only when d = 0 |
| Segmenter.PartNamesDistinct | test2.py:181 | two part names are equal if and only if they are for the same window |
| Segmenter.PartNameStem | test2.py:181 | the `.stem` of a part file is the part name without `.mp4` |
| Segmenter.PartName | test2.py:181 | `{base}_part{i+1:02d}.mp4` (`:03d` at Telegram.py:83); `Segmenter.PartNamesDistinct` and `Segmenter.PartNameStem` carry its contract |
| Segmenter.NamePlan | test2.py:178-191 | one clip per window, in order, named `{base}_partNN.mp4`, all names different |
| Segmenter.SplitPlan | test2.py:163-193 | a video up to the maximum is copied whole as `{stem}_full.mp4`. A longer one gets `ceil(d/m)` ≥ 2 clips. A zero maximum raises for a positive duration. A negative maximum gives no clips |
| Segmenter.SplitPlanLong | test2.py:174-191 | above the maximum the clips tile the duration, window i starts at i·m, and they are named `{sanitised}_partNN.mp4`, all different |
| Segmenter.SplitPlanNonEmpty | test2.py:403-406 | with a positive maximum the plan always has a clip, so the "No clips were generated" guard cannot fire |
| Segmenter.LegacySplitPlan | Telegram.py:73-87 | always `ceil(d/m)` clips and no whole-video shortcut; a zero maximum raises even for d = 0 |
| Segmenter.LegacySplitPlanTiles | Telegram.py:77-87 | the clips tile the duration, are named `{stem}_partNNN.mp4` and are all different; a zero-length video yields no clip |
| Segmenter.SplitPlansAgreeOnWindows | Telegram.py:78-82 | above the maximum both bots cut at the same places |
| Segmenter.ExampleThreeWindows | test2.py:178-180 | 125 s at 50 s per clip is cut as (0, 50), (50, 50), (100, 25) |
| Reframe.TargetWidth | test2.py:109 | `int(th * 9 / 16)` is the largest width with width/th ≤ 9/16; 1080 for 1920 |
| Reframe.SelectStrategy | test2.py:112-120 | the crop, pad or blurred-background choice; `Reframe.SelectStrategyByRatio` states it against the real-valued ratio |
| Reframe.SelectStrategyByRatio | test2.py:107-120 | crop if and only if the ratio is above 1.7, pad if and only if below 0.7, blurred background if and only if in [0.7, 1.7] |
| Reframe.SelectStrategyMonotone | test2.py:112-120 | a wider source never gets a strategy meant for a taller one |
| Reframe.WidescreenIsCropped | test2.py:112-120 | 16:9 and 2.35:1 are cropped; 1:1 and both thresholds get the blurred background |
| Reframe.StrategyAttempted | test2.py:105-107 | the dimension probe worked and the height is non-zero, so `width / height` does not raise; `Reframe.ConvertEnhanced` carries its contract |
| Reframe.ConvertEnhanced | test2.py:101-150 | The strategy encode runs only when the probe worked and the height is non-zero. The fallback runs exactly when that encode was not run or failed. Both encodes use the same input and output. The conversion succeeds if and only if one of the encodes attempted succeeds |
| Reframe.LegacyAxisByRatio | Telegram.py:57 | the width is scaled if and only if the ratio is above 9/16 |
| Reframe.LegacyAxis | Telegram.py:57 | which axis the older bot scales; `Reframe.LegacyAxisByRatio` states it against the ratio 9/16 |
| Reframe.LegacyScaledSize | Telegram.py:57-58 | the scaled frame; `Reframe.LegacyScaledFitsCanvas` states that it fits the canvas |
| Reframe.LegacyScaledFitsCanvas | Telegram.py:57-58 | the scaled frame fits the 9:16 canvas the pad step expects and touches it on the scaled axis |
| Reframe.LegacyScaledKeepsAspect | Telegram.py:56-58 | the scale step keeps the source's aspect ratio: the free side is the exact proportional length rounded down, less than one pixel short of it |
| Reframe.ConvertLegacy | Telegram.py:49-61 | One scale-and-pad encode from the input to the output, on a 1080 × 1920 canvas, with no fallback. The conversion fails exactly when that encode fails. For a non-empty frame the scaled frame fits the canvas, fills it on the axis `LegacyAxis` picks, and keeps the source's aspect ratio to within one pixel on the other side |
| Subtitles.Decompose | test2.py:230-234 | the hours/minutes/seconds/milliseconds split is normalised (minutes and seconds below 60, milliseconds below 1000) and adds back up to t |
| Subtitles.DecomposeUnique | test2.py:231-234 | every normalised timestamp is the decomposition of its total, so the split is the only normal one |
| Subtitles.FmtTime | test2.py:230-235 | `HH:MM:SS,mmm`; `Subtitles.FmtTimeRoundTrip` and `Subtitles.FmtTimeAlphabet` carry its contract |
| Subtitles.FmtTimeAlphabet | test2.py:230-235 | a written time holds no line break and no space, so it cannot merge with the separators around it |
| Subtitles.FmtTimeRoundTrip | test2.py:230-235 | every `HH:MM:SS,mmm` written reads back as the same millisecond count |
| Subtitles.Layout | test2.py:242 | `f"{i}\n{start} --> {end}\n{text}\n\n"` over any four strings; `Subtitles.ReadLayout` carries its contract |
| Subtitles.Block | test2.py:239-242 | one block of the file; `Subtitles.ReadBlockRoundTrip` and `Subtitles.BlockShape` carry its contract |
| Subtitles.Srt | test2.py:237-242 | the whole file; `Subtitles.WriteSrt`, `Subtitles.SrtPrefix` and `Subtitles.SrtReadsBack` carry its contract |
| Subtitles.WriteSrt | test2.py:237-242 | the written file is the concatenation of the numbered blocks of the segments, in order; the same for Telegram.py:111-116 |
| Subtitles.SrtSnoc | test2.py:238-242 | one more segment adds exactly one block, numbered after the others, at the end |
| Subtitles.SrtPrefix | test2.py:238-242 | the file for the first k segments is a prefix of the whole file |
| Subtitles.BlockShape | test2.py:239-242 | a block opens with its number line and the formatted start time followed by ` --> `, and closes with the stripped text and a blank line; that text neither starts nor ends with whitespace |
| Subtitles.ReadBlock | test2.py:242 | a SubRip block reader written independently of the writer: number line, timing line split at ` --> `, text up to the blank line; `Subtitles.ReadBlockRoundTrip` connects it to `Block` |
| Subtitles.ReadLayout | test2.py:242 | a layout whose number is all digits and whose times contain no line break (the start no space) reads back as its number, its parsed times and its text |
| Subtitles.ReadBlockRoundTrip | test2.py:237-242 | every block reads back as its number, its start and end at millisecond precision, and the stripped segment text |
| Subtitles.RenderBlockAt | test2.py:238-242 | block k+1 sits in the file right after the blocks of the first k segments |
| Subtitles.SrtReadsBack | test2.py:237-242 | the text between the files for the first k and the first k+1 segments reads back as segment k: number k+1, both times, stripped text |
| Gates.ValidateVideoFile | test2.py:39-54 | valid if and only if the file exists, is at most 500 MB and lasts at most an hour. Missing if and only if absent. Too large if and only if present and over 500 MB, carrying the observed size. Too long if and only if present, within the size limit and over an hour, carrying the observed duration |
| Gates.ValidationStopsAtFirstFailure | test2.py:42-50 | a missing file is judged without its size or duration, an oversized one without its duration |
| Gates.ValidationLimitsInclusive | test2.py:45-50 | both limits are inclusive; one byte or millisecond more fails |
| Gates.HttpSchemeIsPrefix | test2.py:324 | `^https?://` matches exactly the texts starting with `http://` or `https://` |
| Gates.UrlAcceptedIgnoresPadding | test2.py:320-324 | whitespace around a message does not change whether its link is accepted |
| Gates.MatchesHttpScheme | test2.py:324 | `re.match(r'^https?://', url)`; `Gates.HttpSchemeIsPrefix` carries its contract |
| Gates.UrlAccepted | test2.py:320-324 | the stripped message matches the scheme; `Gates.UrlAcceptedIgnoresPadding` carries its contract |
| Gates.UploadAccepted | test2.py:358 | at most 50 MB; `Pipeline.HandleUpload` and `Pipeline.UploadNeverTooLarge` carry its contract |
| Gates.Inspect | test2.py:273-275 | an entry is removed if and only if it is an expired directory and removable; kept if and only if it is no directory or not older than the cutoff |
| Gates.ExpiredOf | test2.py:273 | exactly the entries that are directories modified before the cutoff |
| Gates.Reached | test2.py:270-278 | the position of the first entry whose `stat` or `rmtree` raises, or the end |
| Gates.CleanupSweep | test2.py:268-278 | the sweep completes if and only if no entry raises; it removes exactly the expired directories before the first failure, in order |
| Gates.CleanupRemovesOnlyExpired | test2.py:271-275 | nothing at or after the cutoff is removed; a completed sweep removes every expired directory |
| Gates.Survivors | test2.py:273 | the entries a completed sweep leaves are exactly the unexpired ones: each one left is unexpired and each unexpired one is left |
| Gates.Expired | test2.py:273 | a directory modified before the cutoff; `Gates.ExpiredOf`, `Gates.Inspect` and `Gates.CleanupRemovesOnlyExpired` carry its contract |
| Gates.ExpiredOrSurvivor | test2.py:273 | every entry is either expired or a survivor: the two lists together are the entries, as a multiset |
| Gates.CompletedSweepSplits | test2.py:268-278 | after a completed sweep, the removed directories and the survivors together are exactly the entries, as a multiset |
| Gates.CleanupOldFiles | test2.py:268-278 | with the default of 24 hours, only directories modified more than 86 400 000 ms before now are removed, and a completed sweep removes all of them |
| Gates.Cutoff | test2.py:271 | `now - max_age_hours * 3600` seconds, in milliseconds; `Gates.CleanupOldFiles` carries its contract |
| Gates.CleanupIdempotent | test2.py:268-278 | sweeping again with the same cutoff after a completed sweep removes nothing |
| Pipeline.ProcessClip | test2.py:413-434 | A clip yields an output if and only if the caption path or the fallback succeeds. The output is captioned if and only if the caption path succeeded, and its captions are then the SubRip text of the transcript. Its name is the clip stem plus `_final.mp4` (`_captioned.mp4` in the older bot) or `_nocaptions.mp4` |
| Pipeline.CaptionPathOk | test2.py:413-427 | the `try` block succeeds: a transcript, the SubRip file, the burn and, in the newer bot, the final optimisation; `Pipeline.ProcessClip` carries its contract |
| Pipeline.CaptionSuffix | test2.py:424 | `_final.mp4`, or `_captioned.mp4` in the older bot (Telegram.py:168), against the fallback's `_nocaptions.mp4`; `Pipeline.ProcessClip` and `Pipeline.PartOutputsDistinct` carry its contract |
| Pipeline.Collect | test2.py:410-434 | either one output per clip in order, or the first clip whose fallback raised, with all earlier clips done |
| Pipeline.ClipLoop | test2.py:410-434 | The loop delivers if and only if every clip yields an output, and then one per clip in clip order. Otherwise it stops at the first clip whose fallback raised, having handled every earlier clip; the same for Telegram.py:160-177 |
| Pipeline.Transcript | test2.py:212-213 | no transcript when the Whisper package is missing (also Telegram.py:94-95); `Pipeline.NoWhisperMeansNoCaptions` carries its contract |
| Pipeline.ProcessClipIn | test2.py:413-434 | One iteration as written, given whether `output/` exists. The directory's state does not change, because `write_srt` (test2.py:237) runs before the only `mkdir` (test2.py:246). With the directory the step is `ProcessClip`; without it the step always raises |
| Pipeline.ClipLoopIn | test2.py:410-434 | the loop as written, carrying the directory's state; without `output/` a non-empty loop stops at its first clip (also Telegram.py:160-177) |
| Pipeline.ClipLoopFirst | test2.py:410-434 | the loop stops at the first clip if its fallback raised; otherwise the rest of the clips run as a loop of their own, with its stop index shifted by one or its outputs after the first |
| Pipeline.ClipLoopInExistingDir | test2.py:410-434 | with `output/` made before the loop, the loop as written is `ClipLoop` |
| Pipeline.NoWhisperMeansNoCaptions | test2.py:212-213 | without Whisper every delivered clip is the uncaptioned fallback |
| Pipeline.DigitRunThenTag | test2.py:424-432 | a name made of a prefix, a digit run and a suffix starting with a non-digit determines the digits and the suffix |
| Pipeline.PartOutputName | test2.py:424-432 | a part clip's output name is its base, `_part`, its padded number and the suffix |
| Pipeline.TaggedPartsDistinct | test2.py:181 | two different part numbers followed by tags that start with a non-digit give different names |
| Pipeline.PartOutputsDistinct | test2.py:424-432 | outputs of different parts never share a name, whichever suffix each got |
| Pipeline.GeneratedNamesDistinct | test2.py:410-434 | whatever the tools do, the delivered files of a cut video have pairwise different names |
| Pipeline.ConvertedStem | test2.py:398-403 | the stem `split_into_clips` sees is the input's stem followed by `_9_16` |
| Pipeline.ConvertedName | test2.py:398 | `{stem}_9_16.mp4` (also Telegram.py:152); `Pipeline.ConvertedStem` carries its contract |
| Pipeline.CurrentStage | test2.py:391-406 | A job reaches the clip loop if and only if conversion, probe and cuts succeed, and then holds the non-empty plan of `{stem}_9_16`. Otherwise it has stopped with the conversion, probe or cut error |
| Pipeline.ProcessVideoFile | test2.py:388-434 | With `output/` made before the clip loop: a job is never turned away and never reports an empty plan. It fails with the conversion error if and only if the conversion fails, with the probe error if and only if the conversion succeeded and the duration probe raised, and with the cut error if and only if the probe succeeded and a cut failed. It delivers only after a successful conversion, probe and cut, and then delivers at least one clip |
| Pipeline.ProcessVideoFileAsWritten | test2.py:388-434 | As written, no job delivers. Every job the corrected version delivers fails on its first clip. A job that stops before the loop ends as in the corrected version |
| Pipeline.MissingOutputDirLosesJob | test2.py:393-434 | a job whose conversion, probe and cuts succeed and whose fallbacks all work is delivered by the corrected version and fails on its first clip as written |
| Pipeline.ProcessVideoFileClips | test2.py:401-434 | once conversion, probe and cuts succeed, the outcome is decided by the clip loop over a non-empty plan |
| Pipeline.ProcessVideoFileLongVideo | test2.py:401-434 | a video longer than 50 s is delivered as `ceil(d/50 s)` files with pairwise different names |
| Pipeline.HandleUrl | test2.py:318-350 | A message is turned away if and only if it is not an http(s) link after stripping. A missing download fails with the download error. A download that fails validation fails with its verdict. A valid download is handed to the job, whose outcome is the handler's |
| Pipeline.HandleUpload | test2.py:352-386 | An upload is turned away if and only if it is over 50 MB. A failed download fails with the download error. A file that fails validation fails with its verdict. A valid file is handed to the job on `{file_id}.mp4`, whose outcome is the handler's |
| Pipeline.UploadNeverTooLarge | test2.py:358-386 | an upload never fails validation as too large: the 50 MB check turns it away before the 500 MB limit is reached |
| Pipeline.HandleUrlIgnoresPadding | test2.py:320 | whitespace around the link does not change how it is handled |
| Pipeline.LegacyStage | Telegram.py:150-158 | A job reaches the clip loop if and only if the encode and the probe succeed and the cuts do too unless the video is empty. It then holds the `ceil(d/50 s)` clips of `{stem}_9_16`. Otherwise it has stopped with the conversion, probe or cut error |
| Pipeline.LegacyProcess | Telegram.py:150-177 | With `output/` made before the clip loop, the older job never reports an empty plan. It fails with the conversion error if and only if the encode fails, and with the probe error if and only if the encode succeeded and the probe raised. It fails with the cut error if and only if the encode and probe succeeded, the duration is positive and a cut failed; a zero-length video has no cuts. A delivery has exactly `ceil(d/50 s)` clips |
| Pipeline.LegacyProcessAsWritten | Telegram.py:141-177 | As written, the older job delivers only an empty list, for a zero-length video. Every job the corrected version delivers with at least one clip fails on its first clip. Any other job ends as in the corrected version |
| Pipeline.LegacyProcessClips | Telegram.py:150-177 | once the encode and the probe succeed, and the cuts too unless the video is empty, the older job is decided by its caption-or-copy loop over the `ceil(d/50 s)` windows of `{stem}_9_16` |
| Pipeline.LegacyEmptyVideoDeliversNothing | Telegram.py:76-87 | once the encode succeeds, a zero-length video is delivered as no clips at all by the older bot, whatever the cut tool would do; the newer bot delivers it as one `_full` clip |
| Pipeline.LegacyHandleUrl | Telegram.py:133-188 | the older bot has no link check; it fails with the download error if and only if the download fails, and otherwise its outcome is the older job's on the downloaded file |
| Pipeline.LegacyHandleUpload | Telegram.py:191-236 | the older bot has no size check and no validation; it fails with the download error if and only if the download fails, and otherwise runs the job on `{file_id}.mp4` |

## Where the model follows the code

In each case below, the model does what the code does.

- **Zero or negative durations and maxima.** `split_into_clips` (test2.py:163-193, Telegram.py:73-87) has no guard against them:
  - in the newer bot, a zero-length video becomes one `_full` clip (test2.py:168-172);
  - in the older bot, it becomes no clips at all (`LegacyEmptyVideoDeliversNothing`);
  - a negative maximum gives an empty plan;
  - a zero maximum raises `ZeroDivisionError`, except in the newer bot's whole-video shortcut.
- **`..` is not removed.** The docstring of `sanitize_filename` (test2.py:34) says it prevents path traversal. It drops the directory part, but it keeps `..` unchanged, because `.` is a safe character (`SanitizeKeepsDotDot`). In use, the result is always followed by a `_partNN.mp4` suffix.
- **16:9 is cropped.** A 16:9 source has a ratio of about 1.78. That is above 1.7, so it is cropped, although the comment on the last branch (test2.py:118) calls 16:9 the blurred-background case (`WidescreenIsCropped`).
- **The empty-plan guard is dead code.** With the fixed 50-second maximum, the newer bot's "No clips were generated" error (test2.py:405-406) cannot happen (`SplitPlanNonEmpty`). The model keeps the guard in `ProcessVideoFile`, and its contract, through `SplitPlanNonEmpty`, states that it never fires.

## Left out

- Telegram messaging is not modelled: replies, status-message edits, `send_video`, the summary message, `/start`, the `/cleanup` command's admin check, `error_handler` and `main`.
- Subprocess execution is not modelled: `run`, its timeout, command lines, ffmpeg filter strings and styling options. Each external step is a success flag or an optional result.
- Whisper internals are not modelled: model loading and transcription are one optional list of segments per clip.
- The filesystem is not modelled beyond whether `output/` exists during the clip loop: the other `mkdir` calls, session directories, `uuid`, `datetime.now()` and the choice of the newest file after yt-dlp. The clock reading, the downloaded file and the directory entries are parameters.
- The summary's `get_video_duration` over the delivered clips is not modelled. It runs after sending, so an exception there only changes the final message.
- A `None` `file_size`, or a message with neither video nor document, is not modelled. Both raise outside any handler in `handle_video_file`.
- `-2` even-dimension rounding in ffmpeg scale filters is not modelled; `LegacyScaledSize` rounds down.
- Subtitles.Decompose: times are whole milliseconds. `fmt_time`'s float arithmetic, which can lose a millisecond to binary rounding in `(t - int(t)) * 1000`, is not modelled.
- Gates.ValidateVideoFile: the duration is compared in whole milliseconds. A float duration a fraction of a millisecond above one hour is rejected by the source but not by the model.
- The cleanup's clock and the directories' modification times are whole milliseconds (`now` and `mtime` are parameters); `stat().st_mtime` is a float in seconds.
- The older bot's frame size is a parameter of the job (`JobTools.frame`); ffmpeg's decoding of it is not modelled.
- Segmenter.SplitPlan and Segmenter.LegacySplitPlan: durations and the maximum are whole milliseconds. Python's float `duration / max_seconds` (test2.py:174, Telegram.py:77) and the float `start`/`length` arguments (Telegram.py:81-82) are not modelled.

## Findings

| source | as written | input that shows it | evidently intended | confidence | as-written member | corrected member |
|---|---|---|---|---|---|---|
| test2.py:393-434 | `output = base_dir / 'output'` (test2.py:393) is never created before the clip loop. The first clip's `write_srt` (test2.py:237, 416-417) opens a file inside it and raises. Its fallback writes into the same missing directory (test2.py:433) and raises too, so the exception leaves the job. The only `mkdir` for it is in `burn_subtitles` (test2.py:246), which comes after the write | any job whose conversion, probe and cuts succeed, even with every per-clip tool working (`MissingOutputDirLosesJob`) | `output.mkdir(parents=True, exist_ok=True)` before the loop, as for `downloads`, so captioned clips and fallbacks are written | high; not executed | Pipeline.ProcessVideoFileAsWritten | Pipeline.ProcessVideoFile |
| Telegram.py:141-177 | As in the newer bot: `output` (Telegram.py:143, 201) is never created before `write_srt` (Telegram.py:111, 165-166, 218-219). The fallback `cp` into it (Telegram.py:175-176, 225-226) fails, so any job with at least one clip fails on its first clip | any job whose encode, probe and cuts succeed on a video longer than zero | an `output.mkdir` before the loop | high; not executed | Pipeline.LegacyProcessAsWritten | Pipeline.LegacyProcess |

In both rows the corrected job is the as-written one with the directory made before the loop: `ClipLoopInExistingDir` proves that the loop as written, started with `output/` in place, is `ClipLoop`. The handlers and every other lemma of the model use the corrected jobs.
