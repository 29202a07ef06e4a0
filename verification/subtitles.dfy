/** SubRip output of both bots: `fmt_time` and `write_srt`. Times are whole
    milliseconds; the file content is returned as a string instead of being
    written. */
module Subtitles {
  import opened Common
  import opened Text

  /** One transcription segment: start and end in milliseconds, and its text. */
  datatype Segment = Segment(start: nat, end: nat, text: string)

  datatype Timestamp = Timestamp(hours: nat, minutes: nat, seconds: nat, millis: nat)

  const MsPerHour: nat := 3600000
  const MsPerMinute: nat := 60000
  const MsPerSecond: nat := 1000

  function TotalMillis(ts: Timestamp): nat
  {
    ts.hours * MsPerHour + ts.minutes * MsPerMinute + ts.seconds * MsPerSecond + ts.millis
  }

  /** Minutes and seconds below 60, milliseconds below 1000; hours unbounded. */
  predicate Normal(ts: Timestamp)
  {
    ts.minutes < 60 && ts.seconds < 60 && ts.millis < 1000
  }

  /** The arithmetic of `fmt_time`: `t // 3600`, `(t % 3600) // 60`,
      `t % 60` and the fractional part, each truncated. */
  function Decompose(t: nat): (ts: Timestamp)
    ensures Normal(ts) && TotalMillis(ts) == t
  {
    var r := t % MsPerHour;
    assert t % MsPerMinute == r % MsPerMinute;
    assert t % MsPerSecond == (t % MsPerMinute) % MsPerSecond;
    Timestamp(t / MsPerHour, r / MsPerMinute, (t % MsPerMinute) / MsPerSecond, t % MsPerSecond)
  }

  /** A normal timestamp is the decomposition of its own total: the
      decomposition is the only one with the bounds above. */
  lemma DecomposeUnique(ts: Timestamp)
    requires Normal(ts)
    ensures Decompose(TotalMillis(ts)) == ts
  {
    var t := TotalMillis(ts);
    var below := ts.minutes * MsPerMinute + ts.seconds * MsPerSecond + ts.millis;
    assert below < MsPerHour;
    assert t == ts.hours * MsPerHour + below;
    assert t / MsPerHour == ts.hours;
    assert t % MsPerHour == below;
  }

  /** The layout `H..H:MM:SS,mmm` from its four digit groups. */
  function Clock(h: string, m: string, s: string, ms: string): string
  {
    h + ":" + m + ":" + s + "," + ms
  }

  /** `fmt_time(t)`: `HH:MM:SS,mmm`, the hours taking more digits when needed. */
  function FmtTime(t: nat): string
  {
    var ts := Decompose(t);
    Clock(ZeroPad(ts.hours, 2), ZeroPad(ts.minutes, 2), ZeroPad(ts.seconds, 2), ZeroPad(ts.millis, 3))
  }

  /** A formatted time holds only digits and the two separators, so neither
      a line break nor a space occurs in it. */
  lemma FmtTimeAlphabet(t: nat)
    ensures '\n' !in FmtTime(t) && ' ' !in FmtTime(t)
  {
    var ts := Decompose(t);
    var h, m, s, ms := ZeroPad(ts.hours, 2), ZeroPad(ts.minutes, 2), ZeroPad(ts.seconds, 2), ZeroPad(ts.millis, 3);
    assert FmtTime(t) == h + ":" + m + ":" + s + "," + ms;
    DigitsExclude(h, '\n');
    DigitsExclude(m, '\n');
    DigitsExclude(s, '\n');
    DigitsExclude(ms, '\n');
    DigitsExclude(h, ' ');
    DigitsExclude(m, ' ');
    DigitsExclude(s, ' ');
    DigitsExclude(ms, ' ');
  }

  /** Reads `H..H:MM:SS,mmm` back into milliseconds. */
  function ParseTime(s: string): Option<nat>
  {
    if |s| < 12 then None
    else
      var n := |s|;
      var hh, mm, ss, ms := s[..n - 10], s[n - 9..n - 7], s[n - 6..n - 4], s[n - 3..];
      if s[n - 10] == ':' && s[n - 7] == ':' && s[n - 4] == ','
         && AllDigits(hh) && AllDigits(mm) && AllDigits(ss) && AllDigits(ms)
      then Some(Value(hh) * MsPerHour + Value(mm) * MsPerMinute + Value(ss) * MsPerSecond + Value(ms))
      else None
  }

  /** Where each group of a `Clock` layout sits, counted from the end. */
  lemma ClockLayout(h: string, m: string, s: string, ms: string)
    requires |h| >= 2 && |m| == 2 && |s| == 2 && |ms| == 3
    ensures var c := Clock(h, m, s, ms); var n := |c|;
      && n == |h| + 10
      && c[..n - 10] == h && c[n - 10] == ':'
      && c[n - 9..n - 7] == m && c[n - 7] == ':'
      && c[n - 6..n - 4] == s && c[n - 4] == ','
      && c[n - 3..] == ms
  {
    var c := Clock(h, m, s, ms);
    var k := |h|;
    assert c == h + (":" + m + ":" + s + "," + ms);
    assert c[k..] == ":" + m + ":" + s + "," + ms;
  }

  lemma ParseClock(h: string, m: string, s: string, ms: string)
    requires |h| >= 2 && |m| == 2 && |s| == 2 && |ms| == 3
    requires AllDigits(h) && AllDigits(m) && AllDigits(s) && AllDigits(ms)
    ensures ParseTime(Clock(h, m, s, ms))
      == Some(Value(h) * MsPerHour + Value(m) * MsPerMinute + Value(s) * MsPerSecond + Value(ms))
  {
    ClockLayout(h, m, s, ms);
  }

  /** Every formatted time reads back as the same number of milliseconds, so
      `fmt_time` loses nothing at millisecond resolution. */
  lemma FmtTimeRoundTrip(t: nat)
    ensures ParseTime(FmtTime(t)) == Some(t)
  {
    var ts := Decompose(t);
    var hh, mm, ss, ms := ZeroPad(ts.hours, 2), ZeroPad(ts.minutes, 2), ZeroPad(ts.seconds, 2), ZeroPad(ts.millis, 3);
    ZeroPadWidth(ts.minutes, 2);
    ZeroPadWidth(ts.seconds, 2);
    ZeroPadWidth(ts.millis, 3);
    ZeroPadRoundTrip(ts.hours, 2);
    ZeroPadRoundTrip(ts.minutes, 2);
    ZeroPadRoundTrip(ts.seconds, 2);
    ZeroPadRoundTrip(ts.millis, 3);
    ParseClock(hh, mm, ss, ms);
    assert FmtTime(t) == Clock(hh, mm, ss, ms);
    assert Value(hh) * MsPerHour + Value(mm) * MsPerMinute + Value(ss) * MsPerSecond + Value(ms) == TotalMillis(ts);
  }

  /** One SubRip block: `{i}\n{start} --> {end}\n{text.strip()}\n\n`. */
  function Block(i: nat, seg: Segment): string
  {
    Layout(Decimal(i), FmtTime(seg.start), FmtTime(seg.end), Strip(seg.text))
  }

  /** The layout of a block from its number, its two times and its text,
      whatever strings they are. */
  function Layout(num: string, start: string, end: string, text: string): string
  {
    num + "\n" + (start + " --> " + end + "\n" + text + "\n\n")
  }

  /** The text of the blocks `block(1, segs[0])`, `block(2, segs[1])`, ...
      written one after the other. */
  function Render(segs: seq<Segment>, block: (nat, Segment) -> string): string
  {
    if segs == [] then "" else Render(segs[..|segs| - 1], block) + block(|segs|, segs[|segs| - 1])
  }

  /** The whole subtitle file: one block per segment, in segment order,
      numbered from 1 (`enumerate(segments, start=1)`). */
  function Srt(segs: seq<Segment>): string
  {
    Render(segs, Block)
  }

  /** Appending a segment appends exactly one block, numbered after the others. */
  lemma RenderSnoc(segs: seq<Segment>, seg: Segment, block: (nat, Segment) -> string)
    ensures Render(segs + [seg], block) == Render(segs, block) + block(|segs| + 1, seg)
  {
    assert (segs + [seg])[..|segs|] == segs;
  }

  lemma RenderStep(segments: seq<Segment>, i: nat, block: (nat, Segment) -> string)
    requires i < |segments|
    ensures Render(segments[..i + 1], block) == Render(segments[..i], block) + block(i + 1, segments[i])
  {
    var prefix := segments[..i];
    var longer := segments[..i + 1];
    assert longer == prefix + [segments[i]];
    RenderSnoc(prefix, segments[i], block);
  }

  /** The text for the first `k` segments is a prefix of the whole text:
      blocks are only ever appended, never revised. */
  lemma {:induction false} RenderPrefix(segs: seq<Segment>, k: nat, block: (nat, Segment) -> string)
    requires k <= |segs|
    ensures Render(segs[..k], block) <= Render(segs, block)
  {
    var n := |segs|;
    if k == n {
      assert segs[..k] == segs;
    } else {
      var init := segs[..n - 1];
      assert init[..k] == segs[..k];
      RenderPrefix(init, k, block);
      var a := Render(segs[..k], block);
      var b := Render(init, block);
      var c := block(n, segs[n - 1]);
      assert Render(segs, block) == b + c;
      assert (b + c)[..|a|] == b[..|a|];
    }
  }

  /** The subtitle file grows one numbered block per segment. */
  lemma SrtSnoc(segs: seq<Segment>, seg: Segment)
    ensures Srt(segs + [seg]) == Srt(segs) + Block(|segs| + 1, seg)
  {
    RenderSnoc(segs, seg, Block);
  }

  /** The subtitle file for the first `k` segments is a prefix of the whole file. */
  lemma SrtPrefix(segs: seq<Segment>, k: nat)
    requires k <= |segs|
    ensures Srt(segs[..k]) <= Srt(segs)
  {
    RenderPrefix(segs, k, Block);
  }

  /** `write_srt(segments, path)`: the loop over `enumerate(segments, start=1)`
      writing one block per segment. */
  method WriteSrt(segments: seq<Segment>) returns (content: string)
    ensures content == Srt(segments)
  {
    content := "";
    var i := 0;
    assert segments[..0] == [];
    while i < |segments|
      invariant 0 <= i <= |segments|
      invariant content == Srt(segments[..i])
    {
      RenderStep(segments, i, Block);
      content := content + Block(i + 1, segments[i]);
      i := i + 1;
    }
    assert segments[..i] == segments;
  }

  /** Any layout opens with its number line and the start of its timing
      line, and closes with its text and a blank line. */
  lemma LayoutShape(num: string, start: string, end: string, text: string)
    ensures num + "\n" <= Layout(num, start, end, text)
    ensures num + "\n" + start + " --> " <= Layout(num, start, end, text)
    ensures EndsWith(Layout(num, start, end, text), text + "\n\n")
  {
    var l := Layout(num, start, end, text);
    var head := num + "\n" + start + " --> ";
    var tail := text + "\n\n";
    var middle := end + "\n";
    assert l == head + middle + tail;
    assert (head + middle + tail)[..|head|] == head;
    assert head[..|num| + 1] == num + "\n";
    assert (head + middle + tail)[|head| + |middle|..] == tail;
  }

  /** A block opens with its number line and the start time followed by
      the arrow. */
  lemma BlockOpens(i: nat, seg: Segment)
    ensures Decimal(i) + "\n" <= Block(i, seg)
    ensures Decimal(i) + "\n" + FmtTime(seg.start) + " --> " <= Block(i, seg)
  {
    LayoutShape(Decimal(i), FmtTime(seg.start), FmtTime(seg.end), Strip(seg.text));
  }

  /** A block closes with the stripped text and a blank line. */
  lemma BlockCloses(i: nat, seg: Segment)
    ensures EndsWith(Block(i, seg), Strip(seg.text) + "\n\n")
  {
    LayoutShape(Decimal(i), FmtTime(seg.start), FmtTime(seg.end), Strip(seg.text));
  }

  /** A block opens with its number line and the start time followed by the
      arrow, and closes with the stripped text, which has no surrounding
      whitespace, and a blank line. */
  lemma BlockShape(i: nat, seg: Segment)
    ensures Decimal(i) + "\n" <= Block(i, seg)
    ensures Decimal(i) + "\n" + FmtTime(seg.start) + " --> " <= Block(i, seg)
    ensures EndsWith(Block(i, seg), Strip(seg.text) + "\n\n")
    ensures var body := Strip(seg.text);
      body != [] ==> !IsSpace(body[0]) && !IsSpace(body[|body| - 1])
  {
    BlockOpens(i, seg);
    BlockCloses(i, seg);
  }

  /** What a reader recovers from one block: the number, the two times and
      the text. */
  datatype BlockFields = BlockFields(number: nat, start: nat, end: nat, text: string)

  /** Reads one SubRip block: the number line, then the timing line
      `START --> END`, then the text up to the closing blank line. `None`
      for anything not laid out that way. */
  function ReadBlock(b: string): Option<BlockFields>
  {
    var i := IndexOf(b, '\n');
    if i == |b| then None else ReadAfterNumber(b[..i], b[i + 1..])
  }

  /** The rest of a block once its number line is read. */
  function ReadAfterNumber(num: string, rest: string): Option<BlockFields>
  {
    var j := IndexOf(rest, '\n');
    if j == |rest| then None else ReadTiming(num, rest[..j], rest[j + 1..])
  }

  /** The timing line, split at its first space into the start time and
      the arrow with the end time. */
  function ReadTiming(num: string, timing: string, body: string): Option<BlockFields>
  {
    var k := IndexOf(timing, ' ');
    if k == |timing| then None else ReadFields(num, timing[..k], timing[k + 1..], body)
  }

  /** The fields of a block once its lines are separated. */
  function ReadFields(num: string, start: string, arrow: string, body: string): Option<BlockFields>
  {
    if num == [] || !AllDigits(num) || |arrow| < 4 || arrow[..4] != "--> "
       || |body| < 2 || body[|body| - 2..] != "\n\n"
    then None
    else
      match (ParseTime(start), ParseTime(arrow[4..]))
      case (Some(t0), Some(t1)) => Some(BlockFields(Value(num), t0, t1, body[..|body| - 2]))
      case _ => None
  }

  /** The parsed fields of a layout, `None` when a time does not parse. */
  function LayoutFields(num: string, start: string, end: string, text: string): Option<BlockFields>
    requires AllDigits(num)
  {
    if ParseTime(start).Some? && ParseTime(end).Some?
    then Some(BlockFields(Value(num), ParseTime(start).value, ParseTime(end).value, text))
    else None
  }

  /** Digits, an arrow before the end time and a blank line after the text
      give the parsed fields. */
  lemma ReadFieldsOf(num: string, start: string, end: string, text: string)
    requires num != [] && AllDigits(num)
    ensures ReadFields(num, start, "--> " + end, text + "\n\n") == LayoutFields(num, start, end, text)
  {
    var arrow := "--> " + end;
    var body := text + "\n\n";
    assert arrow[..4] == "--> " && arrow[4..] == end;
    assert body[|body| - 2..] == "\n\n" && body[..|body| - 2] == text;
  }

  /** A start time without spaces ends at the first space of its line. */
  lemma ReadTimingOf(num: string, start: string, arrow: string, body: string)
    requires ' ' !in start
    ensures ReadTiming(num, start + [' '] + arrow, body) == ReadFields(num, start, arrow, body)
  {
    SplitAtFirst(start, ' ', arrow);
  }

  /** A timing line without line breaks ends at the first one after it. */
  lemma ReadAfterNumberOf(num: string, timing: string, body: string)
    requires '\n' !in timing
    ensures ReadAfterNumber(num, timing + ['\n'] + body) == ReadTiming(num, timing, body)
  {
    SplitAtFirst(timing, '\n', body);
  }

  /** A digit string ends at the first line break after it. */
  lemma ReadBlockOf(num: string, rest: string)
    requires AllDigits(num)
    ensures ReadBlock(num + ['\n'] + rest) == ReadAfterNumber(num, rest)
  {
    DigitsExclude(num, '\n');
    SplitAtFirst(num, '\n', rest);
  }

  /** A layout whose number is a digit string and whose times hold no line
      break (and the start no space) reads back as its parts, the times
      parsed. */
  lemma ReadLayout(num: string, start: string, end: string, text: string)
    requires num != [] && AllDigits(num)
    requires '\n' !in start && ' ' !in start && '\n' !in end
    ensures ReadBlock(Layout(num, start, end, text)) == LayoutFields(num, start, end, text)
  {
    var body := text + "\n\n";
    var arrow := "--> " + end;
    var timing := start + [' '] + arrow;
    var rest := timing + ['\n'] + body;
    assert Layout(num, start, end, text) == num + ['\n'] + rest;
    assert '\n' !in timing;
    ReadBlockOf(num, rest);
    ReadAfterNumberOf(num, timing, body);
    ReadTimingOf(num, start, arrow, body);
    ReadFieldsOf(num, start, end, text);
  }

  /** Every block reads back as its number, its two times at millisecond
      precision and the stripped segment text: `write_srt` loses nothing but
      the whitespace around the text. */
  lemma ReadBlockRoundTrip(i: nat, seg: Segment)
    ensures ReadBlock(Block(i, seg)) == Some(BlockFields(i, seg.start, seg.end, Strip(seg.text)))
  {
    FmtTimeAlphabet(seg.start);
    FmtTimeAlphabet(seg.end);
    FmtTimeRoundTrip(seg.start);
    FmtTimeRoundTrip(seg.end);
    DecimalRoundTrip(i);
    ReadLayout(Decimal(i), FmtTime(seg.start), FmtTime(seg.end), Strip(seg.text));
  }

  /** What follows a prefix inside a longer string sits right after it. */
  lemma SliceAfterPrefix(a: string, b: string, w: string)
    requires a + b <= w
    ensures |a| + |b| <= |w| && w[|a|..|a| + |b|] == b
  {
    assert w[..|a| + |b|] == a + b;
    assert (a + b)[|a|..] == b;
  }

  /** Block `k + 1` of a rendering sits right after the blocks before it. */
  lemma RenderBlockAt(segs: seq<Segment>, k: nat, block: (nat, Segment) -> string)
    requires k < |segs|
    ensures var off := |Render(segs[..k], block)|; var b := block(k + 1, segs[k]);
      off + |b| <= |Render(segs, block)| && Render(segs, block)[off..off + |b|] == b
  {
    RenderStep(segs, k, block);
    RenderPrefix(segs, k + 1, block);
    SliceAfterPrefix(Render(segs[..k], block), block(k + 1, segs[k]), Render(segs, block));
  }

  /** A reader that recovers a block recovers it from its place in the
      rendering too: between the renderings of the segments before it and
      of the segments up to it. */
  lemma RenderReadsBack(segs: seq<Segment>, k: nat, block: (nat, Segment) -> string,
                        read: string -> Option<BlockFields>, fields: BlockFields)
    requires k < |segs|
    requires read(block(k + 1, segs[k])) == Some(fields)
    ensures var off := |Render(segs[..k], block)|; var end := |Render(segs[..k + 1], block)|;
      && off <= end <= |Render(segs, block)|
      && read(Render(segs, block)[off..end]) == Some(fields)
  {
    RenderBlockAt(segs, k, block);
    RenderStep(segs, k, block);
  }

  /** Reading the file between the end of block `k` and the end of block
      `k + 1` recovers segment `k`: its number, its times and its stripped
      text. */
  lemma SrtReadsBack(segs: seq<Segment>, k: nat)
    requires k < |segs|
    ensures var w := Srt(segs); var off := |Srt(segs[..k])|; var end := |Srt(segs[..k + 1])|;
      && off <= end <= |w|
      && ReadBlock(w[off..end])
         == Some(BlockFields(k + 1, segs[k].start, segs[k].end, Strip(segs[k].text)))
  {
    var fields := BlockFields(k + 1, segs[k].start, segs[k].end, Strip(segs[k].text));
    ReadBlockRoundTrip(k + 1, segs[k]);
    RenderReadsBack(segs, k, Block, ReadBlock, fields);
  }
}
