/** Clip segmentation: `split_into_clips` of both bots as a plan of named
    windows. Durations are whole milliseconds and the maximum clip length is
    in the same unit (the bots' 50 seconds is 50000). Running the cutting
    tool for each window is the pipeline's business. */
module Segmenter {
  import opened Common
  import opened Text
  import Paths
  import Sanitize

  const MaxClipSeconds: nat := 50
  const MaxClipMs: nat := MaxClipSeconds * 1000

  /** A planned cut: `index` is the 0-based loop position `i`, `start` the
      offset `i * max_seconds`, `length` the `-t` argument. */
  datatype Window = Window(index: nat, start: nat, length: nat)

  /** A clip of the plan: the file name it is written under and its window. */
  datatype Clip = Clip(name: string, window: Window)

  function End(w: Window): nat
  {
    w.start + w.length
  }

  /** `math.ceil(d / m)` for a non-negative duration and a positive maximum. */
  function CeilDiv(d: nat, m: nat): (n: nat)
    requires m > 0
    ensures d <= n * m
    ensures n > 0 ==> (n - 1) * m < d
    ensures n == 0 <==> d == 0
  {
    var n := (d + m - 1) / m;
    var r := (d + m - 1) % m;
    assert n * m + r == d + m - 1;
    assert (n - 1) * m == n * m - m;
    n
  }

  /** What the arithmetic of loop iteration `i` guarantees. */
  lemma WindowBounds(d: nat, m: nat, i: nat)
    requires m > 0 && i < CeilDiv(d, m)
    ensures i * m < d
    ensures 0 < Min(m, d - i * m) <= m
    ensures i + 1 < CeilDiv(d, m) ==> Min(m, d - i * m) == m
    ensures i + 1 == CeilDiv(d, m) ==> i * m + Min(m, d - i * m) == d
  {
    var n := CeilDiv(d, m);
    MulMonotone(i, n - 1, m);
    if i + 1 < n {
      MulMonotone(i + 1, n - 1, m);
    }
    assert (i + 1) * m == i * m + m;
  }

  /** Window `i`: `start = i * m`, `length = min(m, d - start)`. */
  function WindowAt(d: nat, m: nat, i: nat): Window
    requires m > 0 && i < CeilDiv(d, m)
  {
    WindowBounds(d, m, i);
    Window(i, i * m, Min(m, d - i * m))
  }

  /** The windows of the loop `for i in range(math.ceil(d / m))`. */
  function Windows(d: nat, m: nat): (ws: seq<Window>)
    requires m > 0
    ensures |ws| == CeilDiv(d, m)
  {
    var n := CeilDiv(d, m);
    seq(n, i requires 0 <= i < n => WindowAt(d, m, i))
  }

  function TotalLength(ws: seq<Window>): nat
  {
    if ws == [] then 0 else TotalLength(ws[..|ws| - 1]) + ws[|ws| - 1].length
  }

  /** `ws` cuts the interval [0, d) into consecutive non-empty windows of at
      most `m`, numbered in order, whose lengths add up to `d`. */
  predicate Tiles(ws: seq<Window>, d: nat, m: nat)
  {
    && (forall i :: 0 <= i < |ws| ==> ws[i].index == i && 0 < ws[i].length <= m)
    && (forall i :: 0 <= i < |ws| - 1 ==> End(ws[i]) == ws[i + 1].start)
    && (ws != [] ==> ws[0].start == 0 && End(ws[|ws| - 1]) == d)
    && (forall i, j :: 0 <= i < j < |ws| ==> End(ws[i]) <= ws[j].start)
    && TotalLength(ws) == d
  }

  lemma {:induction false} WindowsPrefixLength(d: nat, m: nat, k: nat)
    requires m > 0 && k <= CeilDiv(d, m)
    ensures TotalLength(Windows(d, m)[..k]) == Min(d, k * m)
  {
    if k > 0 {
      var ws := Windows(d, m);
      var p := ws[..k];
      var s := (k - 1) * m;
      WindowsPrefixLength(d, m, k - 1);
      WindowBounds(d, m, k - 1);
      MulPred(k, m);
      assert p[..k - 1] == ws[..k - 1];
      assert p[k - 1] == Window(k - 1, s, Min(m, d - s));
    }
  }

  /** Each window starts where the previous one ends, holds between 1 and
      `m`, and the last one ends at `d`. */
  lemma WindowsConsecutive(d: nat, m: nat)
    requires m > 0
    ensures var ws := Windows(d, m);
      && (forall i :: 0 <= i < |ws| ==>
            ws[i].index == i && ws[i].start == i * m && 0 < ws[i].length <= m && End(ws[i]) <= (i + 1) * m)
      && (forall i :: 0 <= i < |ws| - 1 ==> End(ws[i]) == ws[i + 1].start)
      && (ws != [] ==> End(ws[|ws| - 1]) == d)
  {
    var ws := Windows(d, m);
    var n := |ws|;
    forall i | 0 <= i < n
      ensures ws[i].index == i && ws[i].start == i * m && 0 < ws[i].length <= m
      ensures i < n - 1 ==> End(ws[i]) == ws[i + 1].start
      ensures i == n - 1 ==> End(ws[i]) == d
      ensures End(ws[i]) <= (i + 1) * m
    {
      WindowBounds(d, m, i);
      assert (i + 1) * m == i * m + m;
    }
  }

  /** No two windows overlap. */
  lemma WindowsDisjoint(d: nat, m: nat)
    requires m > 0
    ensures var ws := Windows(d, m);
      forall i, j :: 0 <= i < j < |ws| ==> End(ws[i]) <= ws[j].start
  {
    var ws := Windows(d, m);
    WindowsConsecutive(d, m);
    forall i, j | 0 <= i < j < |ws|
      ensures End(ws[i]) <= ws[j].start
    {
      MulMonotone(i + 1, j, m);
    }
  }

  /** The windows of a duration tile it: there are `ceil(d / m)` of them,
      window `i` starts at `i * m`, and none is empty or longer than `m`. */
  lemma WindowsPartition(d: nat, m: nat)
    requires m > 0
    ensures Tiles(Windows(d, m), d, m)
    ensures forall i :: 0 <= i < |Windows(d, m)| ==> Windows(d, m)[i].start == i * m
    ensures Windows(d, m) == [] <==> d == 0
  {
    var ws := Windows(d, m);
    WindowsConsecutive(d, m);
    WindowsDisjoint(d, m);
    WindowsPrefixLength(d, m, |ws|);
    assert ws[..|ws|] == ws;
  }

  /** Output name of the `i`-th window: `{base}_part{i+1:0<width>d}.mp4`. */
  function PartName(base: string, i: nat, width: nat): string
  {
    base + "_part" + ZeroPad(i + 1, width) + ".mp4"
  }

  /** Different windows never share a file name. */
  lemma PartNamesDistinct(base: string, i: nat, j: nat, width: nat)
    ensures PartName(base, i, width) == PartName(base, j, width) <==> i == j
  {
    var a := ZeroPad(i + 1, width);
    var b := ZeroPad(j + 1, width);
    var x := PartName(base, i, width);
    var y := PartName(base, j, width);
    if x == y {
      var k := |base| + 5;
      assert |a| == |b|;
      assert x[k..k + |a|] == a;
      assert y[k..k + |b|] == b;
      ZeroPadInjective(i + 1, j + 1, width);
    }
  }

  /** `Path.stem` of a part file is the part name without `.mp4`. */
  lemma PartNameStem(base: string, i: nat, width: nat)
    ensures Paths.Stem(PartName(base, i, width)) == base + "_part" + ZeroPad(i + 1, width)
  {
    Paths.StemOfMp4(base + "_part" + ZeroPad(i + 1, width));
  }

  predicate NamesDistinct(cs: seq<Clip>)
  {
    forall i, j :: 0 <= i < j < |cs| ==> cs[i].name != cs[j].name
  }

  /** The windows a plan cuts, in order; the tiling facts of `SplitPlanLong`,
      `LegacySplitPlanTiles` and `SplitPlansAgreeOnWindows` are stated on it. */
  function WindowsOf(cs: seq<Clip>): (ws: seq<Window>)
    ensures |ws| == |cs|
    ensures forall i :: 0 <= i < |cs| ==> ws[i] == cs[i].window
  {
    seq(|cs|, i requires 0 <= i < |cs| => cs[i].window)
  }

  /** One clip per window, named `PartName(base, i, width)`. */
  function NamePlan(base: string, ws: seq<Window>, width: nat): (cs: seq<Clip>)
    ensures |cs| == |ws| && WindowsOf(cs) == ws
    ensures NamesDistinct(cs)
    ensures forall i :: 0 <= i < |cs| ==> cs[i].name == PartName(base, i, width)
  {
    var cs := seq(|ws|, i requires 0 <= i < |ws| => Clip(PartName(base, i, width), ws[i]));
    assert forall i, j :: 0 <= i < j < |cs| ==> cs[i].name != cs[j].name by {
      forall i, j | 0 <= i < j < |cs|
        ensures cs[i].name != cs[j].name
      {
        PartNamesDistinct(base, i, j, width);
      }
    }
    cs
  }

  /** `split_into_clips` of the newer bot (test2.py). `None` is the
      ZeroDivisionError of `duration / max_seconds`. A video no longer than
      the maximum is copied whole under its unsanitised stem; a longer one is
      cut into `ceil(d / m)` windows named after the sanitised stem with
      two-digit numbers. */
  function SplitPlan(stem: string, d: nat, m: int): (r: Option<seq<Clip>>)
    ensures r == None <==> m == 0 && d > 0
    ensures d <= m ==> r == Some([Clip(stem + "_full.mp4", Window(0, 0, d))])
    ensures m < 0 ==> r == Some([])
    ensures m > 0 && d > m ==> r.Some? && |r.value| == CeilDiv(d, m) >= 2
  {
    if d <= m then Some([Clip(stem + "_full.mp4", Window(0, 0, d))])
    else if m == 0 then None
    else if m < 0 then Some([])
    else
      assert CeilDiv(d, m) >= 2 by {
        assert 1 * m < d;
      }
      Some(NamePlan(Sanitize.SanitizeFilename(stem), Windows(d, m), 2))
  }

  /** For a video longer than the maximum, the plan's windows tile the
      duration and its clips are `{sanitized}_partNN.mp4`, all different. */
  lemma SplitPlanLong(stem: string, d: nat, m: nat)
    requires 0 < m < d
    ensures SplitPlan(stem, d, m).Some?
    ensures var cs := SplitPlan(stem, d, m).value;
      && Tiles(WindowsOf(cs), d, m)
      && NamesDistinct(cs)
      && forall i :: 0 <= i < |cs| ==>
           cs[i].name == PartName(Sanitize.SanitizeFilename(stem), i, 2)
           && cs[i].window.start == i * m
  {
    WindowsPartition(d, m);
  }

  /** With a positive maximum the newer plan is never empty, so the
      "No clips were generated" guard after it cannot fire. */
  lemma SplitPlanNonEmpty(stem: string, d: nat, m: nat)
    requires m > 0
    ensures SplitPlan(stem, d, m).Some? && |SplitPlan(stem, d, m).value| >= 1
  {
  }

  /** `split_into_clips` of the older bot (Telegram.py): always
      `ceil(d / m)` windows, no whole-video shortcut, three-digit numbers and
      the unsanitised stem. `None` is the ZeroDivisionError, which Python
      raises even for a zero duration. */
  function LegacySplitPlan(stem: string, d: nat, m: int): (r: Option<seq<Clip>>)
    ensures r == None <==> m == 0
    ensures m < 0 ==> r == Some([])
    ensures m > 0 ==> r.Some? && |r.value| == CeilDiv(d, m)
  {
    if m == 0 then None
    else if m < 0 then Some([])
    else Some(NamePlan(stem, Windows(d, m), 3))
  }

  /** The older plan tiles the duration with `{stem}_partNNN.mp4` clips;
      a zero-length video yields no clip at all. */
  lemma LegacySplitPlanTiles(stem: string, d: nat, m: nat)
    requires m > 0
    ensures LegacySplitPlan(stem, d, m).Some?
    ensures var cs := LegacySplitPlan(stem, d, m).value;
      && Tiles(WindowsOf(cs), d, m)
      && NamesDistinct(cs)
      && (cs == [] <==> d == 0)
      && forall i :: 0 <= i < |cs| ==>
           cs[i].name == PartName(stem, i, 3) && cs[i].window.start == i * m
  {
    WindowsPartition(d, m);
  }

  /** Above the maximum both bots cut at the same places; they differ only
      in how the clips are named. */
  lemma SplitPlansAgreeOnWindows(stem: string, d: nat, m: nat)
    requires 0 < m < d
    ensures WindowsOf(SplitPlan(stem, d, m).value) == WindowsOf(LegacySplitPlan(stem, d, m).value)
  {
  }

  /** 125 s at 50 s per clip: (0, 50), (50, 50), (100, 25). */
  lemma ExampleThreeWindows()
    ensures Windows(125000, 50000) == [Window(0, 0, 50000), Window(1, 50000, 50000), Window(2, 100000, 25000)]
  {
    assert CeilDiv(125000, 50000) == 3;
  }
}
