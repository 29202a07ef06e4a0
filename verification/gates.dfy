/** The cheap decisions of the newer bot that guard the expensive work: file
    validation, the handlers' URL and upload-size checks, and the age test of
    the cleanup sweep. Sizes are bytes, durations and times milliseconds. */
module Gates {
  import opened Common
  import opened Text

  /** `MAX_FILE_SIZE`: 500 MB. */
  const MaxFileSize: nat := 500 * 1024 * 1024
  /** `MAX_VIDEO_DURATION`: one hour. */
  const MaxVideoDurationMs: nat := 3600 * 1000
  /** `MAX_VIDEO_SIZE_MB`: the 50 MB limit on uploaded files. */
  const MaxUploadBytes: nat := 50 * 1024 * 1024

  /** What `validate_video_file` can observe about a path: whether it exists,
      its size (`None` when `stat()` raises) and its duration (`None` when
      ffprobe or the parsing of its output raises). */
  datatype FileFacts = FileFacts(present: bool, size: Option<nat>, duration: Option<nat>)

  /** The verdict; `Valid` is `(True, "Valid")`, `ValidationError` is the
      `(False, "Validation error: ...")` of the exception handler. */
  datatype Verdict = Valid | Missing | TooLarge(size: nat) | TooLong(duration: nat) | ValidationError

  /** `validate_video_file(path)`: existence first, then size, then the
      duration probe; the first failing check decides. */
  function ValidateVideoFile(f: FileFacts): (v: Verdict)
    ensures v == Valid <==>
      f.present && f.size.Some? && f.size.value <= MaxFileSize
      && f.duration.Some? && f.duration.value <= MaxVideoDurationMs
    ensures v == Missing <==> !f.present
    ensures v.TooLarge? <==> f.present && f.size.Some? && f.size.value > MaxFileSize
    ensures v.TooLong? <==>
      f.present && f.size.Some? && f.size.value <= MaxFileSize
      && f.duration.Some? && f.duration.value > MaxVideoDurationMs
    ensures v.TooLarge? ==> v.size == f.size.value
    ensures v.TooLong? ==> v.duration == f.duration.value
  {
    if !f.present then Missing
    else if f.size.None? then ValidationError
    else if f.size.value > MaxFileSize then TooLarge(f.size.value)
    else if f.duration.None? then ValidationError
    else if f.duration.value > MaxVideoDurationMs then TooLong(f.duration.value)
    else Valid
  }

  /** Each failing check ends validation: a missing file is judged without
      its size or duration, and an oversized one without its duration, so
      ffprobe is never consulted for it. */
  lemma ValidationStopsAtFirstFailure(f: FileFacts, size: Option<nat>, duration: Option<nat>)
    ensures !f.present ==> ValidateVideoFile(f) == ValidateVideoFile(FileFacts(false, size, duration))
    ensures f.present && f.size.Some? && f.size.value > MaxFileSize ==>
      ValidateVideoFile(f) == ValidateVideoFile(f.(duration := duration))
  {
  }

  /** The limits are inclusive: a file exactly at both limits is valid, one
      byte or one millisecond more is not. */
  lemma ValidationLimitsInclusive()
    ensures ValidateVideoFile(FileFacts(true, Some(MaxFileSize), Some(MaxVideoDurationMs))) == Valid
    ensures ValidateVideoFile(FileFacts(true, Some(MaxFileSize + 1), Some(0))) == TooLarge(MaxFileSize + 1)
    ensures ValidateVideoFile(FileFacts(true, Some(0), Some(MaxVideoDurationMs + 1))) == TooLong(MaxVideoDurationMs + 1)
  {
  }

  /** The pattern `^https?://` read literally: "http", an optional "s", "://". */
  predicate MatchesHttpScheme(url: string)
  {
    && |url| >= 4 && url[..4] == "http"
    && var rest := if |url| > 4 && url[4] == 's' then url[5..] else url[4..];
       "://" <= rest
  }

  /** The URL check of `process_video_url` on the stripped message text. */
  predicate UrlAccepted(text: string)
  {
    MatchesHttpScheme(Strip(text))
  }

  /** The pattern accepts exactly the URLs starting with `http://` or `https://`. */
  lemma HttpSchemeIsPrefix(url: string)
    ensures MatchesHttpScheme(url) <==> "http://" <= url || "https://" <= url
  {
    if "http://" <= url {
      assert url[..7] == "http://";
      assert url[..4] == url[..7][..4] && url[4] == url[..7][4];
      assert url[4..][..3] == url[..7][4..];
    }
    if "https://" <= url {
      assert url[..8] == "https://";
      assert url[..4] == url[..8][..4] && url[4] == url[..8][4];
      assert url[5..][..3] == url[..8][5..];
    }
    if MatchesHttpScheme(url) {
      if |url| > 4 && url[4] == 's' {
        assert url[..8] == "https://";
      } else {
        assert url[..7] == "http://";
      }
    }
  }

  /** Whitespace around the message does not change whether it is accepted. */
  lemma UrlAcceptedIgnoresPadding(a: string, text: string, b: string)
    requires AllSpace(a) && AllSpace(b)
    ensures UrlAccepted(a + text + b) == UrlAccepted(text)
  {
    StripIgnoresPadding(a, text, b);
  }

  /** The upload check of `handle_video_file`: at most 50 MB. */
  predicate UploadAccepted(fileSize: nat)
  {
    fileSize <= MaxUploadBytes
  }

  /** `cleanup_old_files`' default `max_age_hours`. */
  const RetentionHours: nat := 24

  /** An entry of the work directory: its name, whether `is_dir()` holds, its
      modification time (`None` when `stat()` raises) and whether
      `shutil.rmtree` on it succeeds. */
  datatype Entry = Entry(name: string, isDir: bool, mtime: Option<int>, removable: bool)

  /** `now - max_age_hours * 3600`, in milliseconds. */
  function Cutoff(now: int, maxAgeHours: nat): int
  {
    now - maxAgeHours * 3600 * 1000
  }

  /** The deletion test: a directory modified strictly before the cutoff. */
  predicate Expired(e: Entry, cutoff: int)
  {
    e.isDir && e.mtime.Some? && e.mtime.value < cutoff
  }

  /** How one entry fares: left alone, removed, or the exception that ends
      the sweep (a failing `stat()` on a directory or a failing `rmtree`). */
  datatype Step = Kept | Removed | Stopped

  function Inspect(e: Entry, cutoff: int): (s: Step)
    ensures s == Removed <==> Expired(e, cutoff) && e.removable
    ensures s == Kept <==> !e.isDir || (e.mtime.Some? && e.mtime.value >= cutoff)
  {
    if !e.isDir then Kept
    else if e.mtime.None? then Stopped
    else if e.mtime.value < cutoff then (if e.removable then Removed else Stopped)
    else Kept
  }

  /** The entries the age test selects, in directory order. */
  function ExpiredOf(entries: seq<Entry>, cutoff: int): (r: seq<Entry>)
    ensures forall e :: e in r ==> e in entries && Expired(e, cutoff)
    ensures forall e :: e in entries && Expired(e, cutoff) ==> e in r
  {
    if entries == [] then []
    else (if Expired(entries[0], cutoff) then [entries[0]] else []) + ExpiredOf(entries[1..], cutoff)
  }

  /** How many entries the sweep gets through before an exception. */
  function Reached(entries: seq<Entry>, cutoff: int): (k: nat)
    ensures k <= |entries|
    ensures forall i :: 0 <= i < k ==> Inspect(entries[i], cutoff) != Stopped
    ensures k < |entries| ==> Inspect(entries[k], cutoff) == Stopped
  {
    if entries == [] || Inspect(entries[0], cutoff) == Stopped then 0
    else 1 + Reached(entries[1..], cutoff)
  }

  /** The outcome of a sweep: the entries removed, in order, and whether the
      loop ran to the end (false when an exception was caught and logged). */
  datatype Sweep = Sweep(removed: seq<Entry>, completed: bool)

  /** `cleanup_old_files` over the entries of the work directory. The first
      exception ends the whole sweep, since the `try` is around the loop. */
  function CleanupSweep(entries: seq<Entry>, cutoff: int): (s: Sweep)
    ensures s.completed <==> Reached(entries, cutoff) == |entries|
    ensures s.removed == ExpiredOf(entries[..Reached(entries, cutoff)], cutoff)
  {
    if entries == [] then Sweep([], true)
    else
      var e := entries[0];
      match Inspect(e, cutoff)
      case Stopped => Sweep([], false)
      case Kept =>
        assert entries[..Reached(entries, cutoff)][1..] == entries[1..][..Reached(entries[1..], cutoff)];
        CleanupSweep(entries[1..], cutoff)
      case Removed =>
        assert entries[..Reached(entries, cutoff)][1..] == entries[1..][..Reached(entries[1..], cutoff)];
        var rest := CleanupSweep(entries[1..], cutoff);
        Sweep([e] + rest.removed, rest.completed)
  }

  /** Nothing younger than the cutoff is ever removed, directories exactly at
      the cutoff and non-directories included; a sweep that runs to the end
      removes every expired directory. */
  lemma CleanupRemovesOnlyExpired(entries: seq<Entry>, cutoff: int)
    ensures forall e :: e in CleanupSweep(entries, cutoff).removed ==> e.isDir && e.mtime.value < cutoff
    ensures CleanupSweep(entries, cutoff).completed ==>
      CleanupSweep(entries, cutoff).removed == ExpiredOf(entries, cutoff)
  {
    var k := Reached(entries, cutoff);
    forall e | e in CleanupSweep(entries, cutoff).removed
      ensures e.isDir && e.mtime.value < cutoff
    {
      assert Expired(e, cutoff);
    }
    if CleanupSweep(entries, cutoff).completed {
      assert entries[..k] == entries;
    }
  }

  /** The entries a completed sweep leaves in place. */
  function Survivors(entries: seq<Entry>, cutoff: int): (r: seq<Entry>)
    ensures forall e :: e in r ==> e in entries && !Expired(e, cutoff)
    ensures forall e :: e in entries && !Expired(e, cutoff) ==> e in r
  {
    if entries == [] then []
    else (if Expired(entries[0], cutoff) then [] else [entries[0]]) + Survivors(entries[1..], cutoff)
  }

  /** Every entry is either expired or a survivor, with multiplicity. */
  lemma {:induction false} ExpiredOrSurvivor(entries: seq<Entry>, cutoff: int)
    ensures multiset(entries) == multiset(ExpiredOf(entries, cutoff)) + multiset(Survivors(entries, cutoff))
  {
    if entries != [] {
      var e := entries[0];
      ExpiredOrSurvivor(entries[1..], cutoff);
      assert entries == [e] + entries[1..];
    }
  }

  /** A completed sweep splits the directory: each entry is either removed
      or left in place, and none is both. */
  lemma CompletedSweepSplits(entries: seq<Entry>, cutoff: int)
    requires CleanupSweep(entries, cutoff).completed
    ensures multiset(entries)
      == multiset(CleanupSweep(entries, cutoff).removed) + multiset(Survivors(entries, cutoff))
  {
    CleanupRemovesOnlyExpired(entries, cutoff);
    ExpiredOrSurvivor(entries, cutoff);
  }

  /** `cleanup_old_files()` with its default age of 24 hours, at clock
      reading `now` (milliseconds): nothing modified in the last day is
      removed, and a sweep that meets no exception removes every directory
      older than a day. */
  function CleanupOldFiles(entries: seq<Entry>, now: int): (s: Sweep)
    ensures forall e :: e in s.removed ==> e in entries && e.isDir && e.mtime.Some? && e.mtime.value < now - 86400000
    ensures s.completed ==>
      forall e :: e in entries && e.isDir && e.mtime.Some? && e.mtime.value < now - 86400000 ==> e in s.removed
  {
    var cutoff := Cutoff(now, RetentionHours);
    assert cutoff == now - 86400000;
    CleanupRemovesOnlyExpired(entries, cutoff);
    CleanupSweep(entries, cutoff)
  }

  /** Sweeping again after a complete sweep removes nothing and completes:
      the cleanup is idempotent for a fixed cutoff. */
  lemma {:induction false} CleanupIdempotent(entries: seq<Entry>, cutoff: int)
    requires CleanupSweep(entries, cutoff).completed
    ensures CleanupSweep(Survivors(entries, cutoff), cutoff) == Sweep([], true)
  {
    if entries != [] {
      var e := entries[0];
      assert Inspect(e, cutoff) != Stopped;
      CleanupIdempotent(entries[1..], cutoff);
      var rest := Survivors(entries[1..], cutoff);
      if !Expired(e, cutoff) {
        assert Survivors(entries, cutoff) == [e] + rest;
        assert ([e] + rest)[1..] == rest;
      } else {
        assert Survivors(entries, cutoff) == rest;
      }
    }
  }
}
