/**
 * Time-averaging windows for a Moran-model simulation (MoranTimeAverager).
 *
 * Durations are given in generations and turned into simulation ticks by
 * multiplying with the population size.  All windows of one averager share an
 * anchor tick: in "ending" mode every window starts at the anchor and the
 * windows differ in their end; in "starting" mode every window ends at the
 * anchor and the windows differ in their start.  The windows are therefore
 * nested, and the averager keeps the earliest and latest tick over all of them.
 */
module TimeAveraging {

  /** A window of simulation ticks, as the pair (start, end). */
  type Interval = (int, int)

  /** The largest element of a non-empty sequence (the language's built-in max). */
  function MaxOf(s: seq<int>): (m: int)
    requires |s| > 0
    ensures m in s
    ensures forall i :: 0 <= i < |s| ==> s[i] <= m
  {
    if |s| == 1 then s[0]
    else
      var rest := MaxOf(s[1..]);
      if s[0] >= rest then s[0] else rest
  }

  /** The smallest element of a non-empty sequence (the language's built-in min). */
  function MinOf(s: seq<int>): (m: int)
    requires |s| > 0
    ensures m in s
    ensures forall i :: 0 <= i < |s| ==> m <= s[i]
  {
    if |s| == 1 then s[0]
    else
      var rest := MinOf(s[1..]);
      if s[0] <= rest then s[0] else rest
  }

  /** The window `ticks` long anchored at `indextime`: forward in ending mode, backward otherwise. */
  function WindowAt(indextime: int, ticks: int, endingInterval: bool): (w: Interval)
  {
    if endingInterval then (indextime, indextime + ticks) else (indextime - ticks, indextime)
  }

  /** One window per tick length, in the order the lengths are given. */
  function Windows(indextime: int, ticks: seq<int>, endingInterval: bool): (ws: seq<Interval>)
    ensures |ws| == |ticks|
  {
    seq(|ticks|, i requires 0 <= i < |ticks| => WindowAt(indextime, ticks[i], endingInterval))
  }

  function Starts(ws: seq<Interval>): (r: seq<int>)
    ensures |r| == |ws|
  {
    seq(|ws|, i requires 0 <= i < |ws| => ws[i].0)
  }

  function Ends(ws: seq<Interval>): (r: seq<int>)
    ensures |r| == |ws|
  {
    seq(|ws|, i requires 0 <= i < |ws| => ws[i].1)
  }

  /** The earliest tick as the constructor records it. */
  function EarliestOf(indextime: int, ws: seq<Interval>, endingInterval: bool): (earliest: int)
    requires |ws| > 0
  {
    if endingInterval then indextime else MinOf(Starts(ws))
  }

  /** The latest tick as the constructor records it. */
  function LatestOf(indextime: int, ws: seq<Interval>, endingInterval: bool): (latest: int)
    requires |ws| > 0
  {
    if endingInterval then MaxOf(Ends(ws)) else indextime
  }

  /** Every window shares the anchor (its start in ending mode, its end otherwise) and spans its own tick length. */
  lemma WindowsShareAnchor(indextime: int, ticks: seq<int>, endingInterval: bool)
    ensures var ws := Windows(indextime, ticks, endingInterval);
      forall i :: 0 <= i < |ws| ==>
        ws[i].1 - ws[i].0 == ticks[i] &&
        (if endingInterval then ws[i].0 == indextime else ws[i].1 == indextime)
  {
  }

  /** The windows are nested: a window of a shorter duration lies inside every window of a longer one. */
  lemma WindowsNested(indextime: int, ticks: seq<int>, endingInterval: bool, i: int, j: int)
    requires 0 <= i < |ticks| && 0 <= j < |ticks|
    requires ticks[i] <= ticks[j]
    ensures var ws := Windows(indextime, ticks, endingInterval);
      ws[j].0 <= ws[i].0 && ws[i].1 <= ws[j].1
  {
  }

  /**
   * The recorded bounds enclose every window, and each bound is reached:
   * some window starts at the earliest tick and some window ends at the latest.
   */
  lemma BoundsEncloseWindows(indextime: int, ticks: seq<int>, endingInterval: bool)
    requires |ticks| > 0
    ensures var ws := Windows(indextime, ticks, endingInterval);
      var lo, hi := EarliestOf(indextime, ws, endingInterval), LatestOf(indextime, ws, endingInterval);
      (forall i :: 0 <= i < |ws| ==> lo <= ws[i].0 && ws[i].1 <= hi) &&
      (exists i :: 0 <= i < |ws| && ws[i].0 == lo) &&
      (exists j :: 0 <= j < |ws| && ws[j].1 == hi)
  {
    var ws := Windows(indextime, ticks, endingInterval);
    var lo, hi := EarliestOf(indextime, ws, endingInterval), LatestOf(indextime, ws, endingInterval);
    forall i | 0 <= i < |ws| ensures lo <= ws[i].0 && ws[i].1 <= hi {
      assert Starts(ws)[i] == ws[i].0 && Ends(ws)[i] == ws[i].1;
    }
    var s :| 0 <= s < |ws| && Starts(ws)[s] == MinOf(Starts(ws));
    var e :| 0 <= e < |ws| && Ends(ws)[e] == MaxOf(Ends(ws));
    if endingInterval {
      assert ws[0].0 == lo;
      assert ws[e].1 == hi;
    } else {
      assert ws[s].0 == lo;
      assert ws[0].1 == hi;
    }
  }

  /**
   * The bound that is not the anchor lies one longest duration away from it:
   * latest = anchor + max length in ending mode, earliest = anchor - max length otherwise.
   */
  lemma BoundsFromLongestWindow(indextime: int, ticks: seq<int>, endingInterval: bool)
    requires |ticks| > 0
    ensures var ws := Windows(indextime, ticks, endingInterval);
      if endingInterval then
        EarliestOf(indextime, ws, true) == indextime && LatestOf(indextime, ws, true) == indextime + MaxOf(ticks)
      else
        EarliestOf(indextime, ws, false) == indextime - MaxOf(ticks) && LatestOf(indextime, ws, false) == indextime
  {
    var ws := Windows(indextime, ticks, endingInterval);
    var m := MaxOf(ticks);
    var k :| 0 <= k < |ticks| && ticks[k] == m;
    if endingInterval {
      var hi := MaxOf(Ends(ws));
      assert Ends(ws)[k] == indextime + m;
      var e :| 0 <= e < |ws| && Ends(ws)[e] == hi;
      assert Ends(ws)[e] == indextime + ticks[e];
    } else {
      var lo := MinOf(Starts(ws));
      assert Starts(ws)[k] == indextime - m;
      var s :| 0 <= s < |ws| && Starts(ws)[s] == lo;
      assert Starts(ws)[s] == indextime - ticks[s];
    }
  }

  /**
   * The coarse bounds check is exactly membership in the union of the windows,
   * each taken closed at both ends.
   */
  lemma WithinIffInSomeWindow(indextime: int, ticks: seq<int>, endingInterval: bool, t: int)
    requires |ticks| > 0
    ensures var ws := Windows(indextime, ticks, endingInterval);
      (EarliestOf(indextime, ws, endingInterval) <= t <= LatestOf(indextime, ws, endingInterval))
      <==> (exists i :: 0 <= i < |ws| && ws[i].0 <= t <= ws[i].1)
  {
    var ws := Windows(indextime, ticks, endingInterval);
    var lo, hi := EarliestOf(indextime, ws, endingInterval), LatestOf(indextime, ws, endingInterval);
    BoundsEncloseWindows(indextime, ticks, endingInterval);
    if lo <= t <= hi {
      if endingInterval {
        var j :| 0 <= j < |ws| && ws[j].1 == hi;
        assert ws[j].0 == lo;
      } else {
        var i :| 0 <= i < |ws| && ws[i].0 == lo;
        assert ws[i].1 == hi;
      }
    }
  }

  /** The pairs (anchor, end) built from the shifted ends are the ending-mode windows. */
  lemma EndingWindowsBuilt(indextime: int, ticks: seq<int>, endList: seq<int>, tuples: seq<Interval>)
    requires |endList| == |ticks| && forall j :: 0 <= j < |ticks| ==> endList[j] == ticks[j] + indextime
    requires |tuples| == |ticks| && forall j :: 0 <= j < |ticks| ==> tuples[j] == (indextime, endList[j])
    ensures tuples == Windows(indextime, ticks, true)
    ensures endList == Ends(tuples)
  {
  }

  /** The pairs (start, anchor) built from the shifted starts are the starting-mode windows. */
  lemma StartingWindowsBuilt(indextime: int, ticks: seq<int>, startList: seq<int>, tuples: seq<Interval>)
    requires |startList| == |ticks| && forall j :: 0 <= j < |ticks| ==> startList[j] == indextime - ticks[j]
    requires |tuples| == |ticks| && forall j :: 0 <= j < |ticks| ==> tuples[j] == (startList[j], indextime)
    ensures tuples == Windows(indextime, ticks, false)
    ensures startList == Starts(tuples)
  {
  }

  /** Appends (start, end) for each end in turn: the ending-mode loop of the constructor. */
  method PairWithStart(start: int, endList: seq<int>) returns (tuples: seq<Interval>)
    ensures |tuples| == |endList|
    ensures forall j :: 0 <= j < |endList| ==> tuples[j] == (start, endList[j])
  {
    tuples := [];
    for k := 0 to |endList|
      invariant |tuples| == k
      invariant forall j :: 0 <= j < k ==> tuples[j] == (start, endList[j])
    {
      tuples := tuples + [(start, endList[k])];
    }
  }

  /** Appends (start, end) for each start in turn: the starting-mode loop of the constructor. */
  method PairWithEnd(startList: seq<int>, end: int) returns (tuples: seq<Interval>)
    ensures |tuples| == |startList|
    ensures forall j :: 0 <= j < |startList| ==> tuples[j] == (startList[j], end)
  {
    tuples := [];
    for k := 0 to |startList|
      invariant |tuples| == k
      invariant forall j :: 0 <= j < k ==> tuples[j] == (startList[j], end)
    {
      tuples := tuples + [(startList[k], end)];
    }
  }

  class MoranTimeAverager {
    var intervalsByTick: seq<int>
    var intervalTuples: seq<Interval>
    var earliestTick: int
    var latestTick: int
    /** The anchor tick and the anchor mode the averager was built with; only the windows keep them. */
    ghost var indexTime: int
    ghost var endingInterval: bool

    ghost predicate Valid()
      reads this
    {
      |intervalsByTick| > 0 &&
      intervalTuples == Windows(indexTime, intervalsByTick, endingInterval) &&
      earliestTick == EarliestOf(indexTime, intervalTuples, endingInterval) &&
      latestTick == LatestOf(indexTime, intervalTuples, endingInterval)
    }

    /**
     * Scales each duration to ticks, builds one window per duration in input
     * order, and records the earliest and latest tick (as Valid() states them;
     * BoundsFromLongestWindow restates them through the longest tick length).
     * Ending mode is the default.  An empty duration list has no max or min,
     * so it is not accepted.
     */
    constructor (indextime: int, intervalList: seq<int>, popsize: int, endingInterval: bool := true)
      requires |intervalList| > 0
      ensures Valid()
      ensures this.indexTime == indextime && this.endingInterval == endingInterval
      ensures |intervalsByTick| == |intervalList|
      ensures forall i :: 0 <= i < |intervalList| ==> intervalsByTick[i] == intervalList[i] * popsize
      ensures |intervalTuples| == |intervalList|
      ensures forall i :: 0 <= i < |intervalList| ==>
        intervalTuples[i] == if endingInterval then (indextime, indextime + intervalsByTick[i])
                             else (indextime - intervalsByTick[i], indextime)
    {
      var ticks := seq(|intervalList|, i requires 0 <= i < |intervalList| => intervalList[i] * popsize);
      var tuples: seq<Interval>;
      var earliest, latest;
      if endingInterval {
        var start := indextime;
        var endList := seq(|ticks|, i requires 0 <= i < |ticks| => ticks[i] + start);
        tuples := PairWithStart(start, endList);
        EndingWindowsBuilt(indextime, ticks, endList, tuples);
        earliest := indextime;
        latest := MaxOf(endList);
      } else {
        var end := indextime;
        var startList := seq(|ticks|, i requires 0 <= i < |ticks| => end - ticks[i]);
        tuples := PairWithEnd(startList, end);
        StartingWindowsBuilt(indextime, ticks, startList, tuples);
        earliest := MinOf(startList);
        latest := indextime;
      }
      intervalsByTick := ticks;
      intervalTuples := tuples;
      earliestTick := earliest;
      latestTick := latest;
      this.indexTime := indextime;
      this.endingInterval := endingInterval;
    }

    /** The windows in the order their durations were given, each anchored and spanning its tick length. */
    method GetIntervalTuples() returns (r: seq<Interval>)
      requires Valid()
      ensures r == intervalTuples
      ensures |r| == |intervalsByTick|
      ensures forall i :: 0 <= i < |r| ==>
        r[i].1 - r[i].0 == intervalsByTick[i] &&
        (if endingInterval then r[i].0 == indexTime else r[i].1 == indexTime)
    {
      WindowsShareAnchor(indexTime, intervalsByTick, endingInterval);
      r := intervalTuples;
    }

    /** The earliest tick: no window starts before it and some window starts at it. */
    method GetEarliestTickForAllIntervals() returns (r: int)
      requires Valid()
      ensures r == earliestTick
      ensures forall i :: 0 <= i < |intervalTuples| ==> r <= intervalTuples[i].0
      ensures exists i :: 0 <= i < |intervalTuples| && intervalTuples[i].0 == r
    {
      BoundsEncloseWindows(indexTime, intervalsByTick, endingInterval);
      r := earliestTick;
    }

    /** The latest tick: no window ends after it and some window ends at it. */
    method GetLatestTickForAllIntervals() returns (r: int)
      requires Valid()
      ensures r == latestTick
      ensures forall i :: 0 <= i < |intervalTuples| ==> intervalTuples[i].1 <= r
      ensures exists i :: 0 <= i < |intervalTuples| && intervalTuples[i].1 == r
    {
      BoundsEncloseWindows(indexTime, intervalsByTick, endingInterval);
      r := latestTick;
    }

    /**
     * Inclusive bounds check on both ends; equivalently, the tick lies in some
     * window taken closed at both ends.
     */
    method IsWithinIntervals(timestep: int) returns (b: bool)
      requires Valid()
      ensures b <==> earliestTick <= timestep <= latestTick
      ensures b <==> exists i :: 0 <= i < |intervalTuples| && intervalTuples[i].0 <= timestep <= intervalTuples[i].1
    {
      WithinIffInSomeWindow(indexTime, intervalsByTick, endingInterval, timestep);
      b := earliestTick <= timestep <= latestTick;
    }

    /** Accepts a population sample and does nothing with it. */
    method RecordSample<P>(pop: P)
      ensures unchanged(this)
    {
    }
  }

  /** Durations 10, 50, 100 generations, population 100, anchor 100000, starting mode. */
  method StartingIntervalInitialization() returns (obs: seq<Interval>)
    ensures obs == [(99000, 100000), (95000, 100000), (90000, 100000)]
  {
    var tatrack := new MoranTimeAverager(100000, [10, 50, 100], 100, false);
    obs := tatrack.GetIntervalTuples();
  }

  /** The same durations in ending mode. */
  method EndingIntervalInitialization() returns (obs: seq<Interval>)
    ensures obs == [(100000, 101000), (100000, 105000), (100000, 110000)]
  {
    var tatrack := new MoranTimeAverager(100000, [10, 50, 100], 100, true);
    obs := tatrack.GetIntervalTuples();
  }

  /** Leaving out the mode selects ending mode: the same durations give the ending-mode windows. */
  method DefaultModeIsEnding() returns (obs: seq<Interval>)
    ensures obs == [(100000, 101000), (100000, 105000), (100000, 110000)]
  {
    var tatrack := new MoranTimeAverager(100000, [10, 50, 100], 100);
    obs := tatrack.GetIntervalTuples();
  }

  /** In ending mode the bounds are 100000 and 110000, so both ends and tick 103501 are within, 99999 is not. */
  method InInterval() returns (earliest: int, latest: int, inside: bool, lowEdge: bool, highEdge: bool, before: bool)
    ensures earliest == 100000 && latest == 110000
    ensures inside && lowEdge && highEdge && !before
  {
    var tatrack := new MoranTimeAverager(100000, [10, 50, 100], 100, true);
    BoundsFromLongestWindow(100000, tatrack.intervalsByTick, true);
    earliest := tatrack.GetEarliestTickForAllIntervals();
    latest := tatrack.GetLatestTickForAllIntervals();
    inside := tatrack.IsWithinIntervals(103501);
    lowEdge := tatrack.IsWithinIntervals(100000);
    highEdge := tatrack.IsWithinIntervals(110000);
    before := tatrack.IsWithinIntervals(99999);
  }
}
