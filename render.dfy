/** The data-shaping part of `renderSwimlane`: one series per colour band
    plus the 'unknown' series, one point per (lane, time) entry placed in the
    series its value classifies to, the y-axis ticks and lane markings, the
    element height, the hover lookup of a point's lane and the padding of a
    zoom selection. */
module Render {
  import opened Wrappers
  import opened JsObject
  import opened Aggregations
  import opened Thresholds
  import opened LaneOrder

  /** `[time, laneIndex + 0.5, {score: value}]`; the time is the lane
      object's property name, before `moment(Number(time))`. */
  datatype Point = Point(time: string, y: real, score: real)

  /** `series_unknown` or `series_${index}`. */
  datatype SeriesLabel = UnknownSeries | BandSeries(index: nat)

  /** The parts of a flot series the controller sets and reads; point
      styling and the drawing callback are left out. */
  datatype Series = Series(seriesLabel: SeriesLabel, color: string, thresholdValue: Option<real>, data: seq<Point>)

  /** Lines 235-263: a series per band, then the 'unknown' series put in
      front, all with no points yet. */
  method BuildSeries(bands: seq<ThresholdBand>, unknownThresholdColor: string) returns (allSeries: array<Series>)
    ensures fresh(allSeries)
    ensures allSeries.Length == |bands| + 1
    ensures allSeries[0] == Series(UnknownSeries, unknownThresholdColor, None, [])
    ensures forall i :: 0 <= i < |bands| ==>
      allSeries[i + 1] == Series(BandSeries(i), bands[i].color, Some(bands[i].value), [])
  {
    allSeries := new Series[|bands| + 1];
    allSeries[0] := Series(UnknownSeries, unknownThresholdColor, None, []);
    for i := 0 to |bands|
      invariant allSeries[0] == Series(UnknownSeries, unknownThresholdColor, None, [])
      invariant forall j :: 0 <= j < i ==>
        allSeries[j + 1] == Series(BandSeries(j), bands[j].color, Some(bands[j].value), [])
    {
      allSeries[i + 1] := Series(BandSeries(i), bands[i].color, Some(bands[i].value), []);
    }
  }

  /** `Array.prototype.indexOf`: the first position of `x`, or -1. */
  function IndexOf(s: seq<string>, x: string): (r: int)
    ensures -1 <= r < |s|
    ensures r == -1 <==> x !in s
    ensures 0 <= r ==> s[r] == x && forall j :: 0 <= j < r ==> s[j] != x
  {
    if s == [] then -1
    else if s[0] == x then 0
    else
      var r := IndexOf(s[1..], x);
      if r == -1 then -1 else r + 1
  }

  /** The row centre of a lane: `laneIds.indexOf(lane) + 0.5`. */
  function LaneY(laneIds: seq<string>, lane: string): (r: real)
    ensures lane in laneIds <==> 0.0 < r < |laneIds| as real
    ensures lane !in laneIds ==> r == -0.5
  {
    IndexOf(laneIds, lane) as real + 0.5
  }

  /** The points of the first `n` times of one lane, in enumeration order. */
  function LanePoints(lane: string, times: LaneTimes, laneIds: seq<string>, n: nat): (ps: seq<Point>)
    requires times.Valid() && n <= |times.keys|
    ensures |ps| == n
  {
    if n == 0 then []
    else
      var time := times.keys[n - 1];
      LanePoints(lane, times, laneIds, n - 1) + [Point(time, LaneY(laneIds, lane), times.entries[time])]
  }

  /** The points of the first `m` lanes of the data, in enumeration order. */
  function ChartPoints(md: MetricsData, laneIds: seq<string>, m: nat): seq<Point>
    requires WellFormed(md) && m <= |md.keys|
  {
    if m == 0 then []
    else
      var lane := md.keys[m - 1];
      ChartPoints(md, laneIds, m - 1) + LanePoints(lane, md.entries[lane], laneIds, |md.entries[lane].keys|)
  }

  /** Every point the nested `_.each` at lines 285-301 creates, in order. */
  function AllPoints(md: MetricsData, laneIds: seq<string>): seq<Point>
    requires WellFormed(md)
  {
    ChartPoints(md, laneIds, |md.keys|)
  }

  /** The number of (lane, time) entries in the first `m` lanes. */
  function EntryCount(md: MetricsData, m: nat): nat
    requires WellFormed(md) && m <= |md.keys|
  {
    if m == 0 then 0 else EntryCount(md, m - 1) + |md.entries[md.keys[m - 1]].keys|
  }

  /** The points, in order, that classify to series `k`. */
  function InSeries(ps: seq<Point>, bands: seq<ThresholdBand>, k: nat): (r: seq<Point>)
    requires |bands| > 0
    ensures |r| <= |ps|
  {
    if ps == [] then []
    else
      var last := ps[|ps| - 1];
      InSeries(ps[..|ps| - 1], bands, k) + (if SeriesIndex(last.score, bands) == k then [last] else [])
  }

  lemma InSeriesAppend(ps: seq<Point>, p: Point, bands: seq<ThresholdBand>, k: nat)
    requires |bands| > 0
    ensures InSeries(ps + [p], bands, k) == InSeries(ps, bands, k) + (if SeriesIndex(p.score, bands) == k then [p] else [])
  {
    assert (ps + [p])[..|ps|] == ps;
  }

  /** Series `k` holds exactly the points whose value classifies to `k`. */
  lemma {:induction false} InSeriesMembers(ps: seq<Point>, bands: seq<ThresholdBand>, k: nat)
    requires |bands| > 0
    ensures forall p :: p in InSeries(ps, bands, k) <==> p in ps && SeriesIndex(p.score, bands) == k
  {
    if ps != [] {
      var init := ps[..|ps| - 1];
      InSeriesMembers(init, bands, k);
      assert ps == init + [ps[|ps| - 1]];
    }
  }

  /** The series `start` with the points of `ps` pushed onto the series
      each classifies to. */
  ghost function Distributed(start: seq<Series>, ps: seq<Point>, bands: seq<ThresholdBand>): seq<Series>
    requires |bands| > 0
  {
    seq(|start|, k requires 0 <= k < |start| => start[k].(data := start[k].data + InSeries(ps, bands, k)))
  }

  lemma DistributedNone(start: seq<Series>, bands: seq<ThresholdBand>)
    requires |bands| > 0
    ensures Distributed(start, [], bands) == start
  {
    var d := Distributed(start, [], bands);
    forall k | 0 <= k < |start|
      ensures d[k] == start[k]
    {
      assert start[k].data + [] == start[k].data;
    }
  }

  /** Pushing one more point changes only the series its value classifies to. */
  lemma DistributedAppend(start: seq<Series>, ps: seq<Point>, p: Point, bands: seq<ThresholdBand>)
    requires |bands| > 0 && |start| == |bands| + 1
    ensures var before := Distributed(start, ps, bands);
      var k := SeriesIndex(p.score, bands);
      Distributed(start, ps + [p], bands) == before[k := before[k].(data := before[k].data + [p])]
  {
    var before := Distributed(start, ps, bands);
    var k := SeriesIndex(p.score, bands);
    var after := Distributed(start, ps + [p], bands);
    forall j | 0 <= j < |start|
      ensures after[j] == before[k := before[k].(data := before[k].data + [p])][j]
    {
      InSeriesAppend(ps, p, bands, j);
    }
  }

  /** Lines 284-301: every (lane, time) entry becomes one point, pushed onto
      the series `getSeriesIndex` picks for its value. With no bands
      `getSeriesIndex` would throw, so there must then be no entries; the
      series are then left as they are. */
  method AssemblePoints(metricsData: MetricsData, laneIds: seq<string>, bands: seq<ThresholdBand>, allSeries: array<Series>)
    requires WellFormed(metricsData) && allSeries.Length == |bands| + 1
    requires |bands| > 0 || EntryCount(metricsData, |metricsData.keys|) == 0
    modifies allSeries
    ensures |bands| > 0 ==> forall k :: 0 <= k < allSeries.Length ==>
      allSeries[k] == old(allSeries[k]).(data := old(allSeries[k].data) + InSeries(AllPoints(metricsData, laneIds), bands, k))
    ensures |bands| == 0 ==> allSeries[..] == old(allSeries[..])
  {
    ghost var start := allSeries[..];
    if |bands| > 0 {
      DistributedNone(start, bands);
    }
    var i := 0;
    while i < |metricsData.keys|
      invariant 0 <= i <= |metricsData.keys|
      invariant |bands| > 0 ==> allSeries[..] == Distributed(start, ChartPoints(metricsData, laneIds, i), bands)
      invariant |bands| == 0 ==> allSeries[..] == start
    {
      var viewByValue := metricsData.keys[i];
      var laneIndex := IndexOf(laneIds, viewByValue);
      if |bands| == 0 {
        LaneEntriesBound(metricsData, i);
      }
      PushLanePoints(viewByValue, metricsData.entries[viewByValue], laneIds, laneIndex, bands, allSeries,
                     start, if |bands| > 0 then ChartPoints(metricsData, laneIds, i) else []);
      i := i + 1;
    }
    assert forall k :: 0 <= k < allSeries.Length ==> allSeries[k] == allSeries[..][k];
  }

  /** The entries counted so far never exceed the total. */
  lemma {:induction false} EntryCountMonotone(md: MetricsData, i: nat, m: nat)
    requires WellFormed(md) && i <= m <= |md.keys|
    ensures EntryCount(md, i) <= EntryCount(md, m)
  {
    if i < m {
      EntryCountMonotone(md, i, m - 1);
    }
  }

  /** One lane's entries are among all the entries. */
  lemma LaneEntriesBound(md: MetricsData, i: nat)
    requires WellFormed(md) && i < |md.keys|
    ensures |md.entries[md.keys[i]].keys| <= EntryCount(md, |md.keys|)
  {
    EntryCountMonotone(md, i + 1, |md.keys|);
  }

  /** The inner callback of lines 290-300 over one lane's times, with
      `laneIndex` the lane's row. */
  method PushLanePoints(viewByValue: string, bucketsForViewByValue: LaneTimes, laneIds: seq<string>, laneIndex: int,
                        bands: seq<ThresholdBand>, allSeries: array<Series>,
                        ghost start: seq<Series>, ghost before: seq<Point>)
    requires bucketsForViewByValue.Valid() && allSeries.Length == |bands| + 1 && |start| == |bands| + 1
    requires |bands| > 0 || |bucketsForViewByValue.keys| == 0
    requires laneIndex == IndexOf(laneIds, viewByValue)
    requires |bands| > 0 ==> allSeries[..] == Distributed(start, before, bands)
    modifies allSeries
    ensures |bands| > 0 ==>
      allSeries[..] == Distributed(start, before + LanePoints(viewByValue, bucketsForViewByValue, laneIds, |bucketsForViewByValue.keys|), bands)
    ensures |bands| == 0 ==> allSeries[..] == old(allSeries[..])
  {
    var j := 0;
    assert before + LanePoints(viewByValue, bucketsForViewByValue, laneIds, 0) == before;
    while j < |bucketsForViewByValue.keys|
      invariant 0 <= j <= |bucketsForViewByValue.keys|
      invariant |bands| > 0 ==>
        allSeries[..] == Distributed(start, before + LanePoints(viewByValue, bucketsForViewByValue, laneIds, j), bands)
      invariant |bands| == 0 ==> allSeries[..] == old(allSeries[..])
    {
      var time := bucketsForViewByValue.keys[j];
      var value := bucketsForViewByValue.entries[time];
      var pointData := Point(time, laneIndex as real + 0.5, value);
      ghost var lanePrefix := LanePoints(viewByValue, bucketsForViewByValue, laneIds, j);
      assert LanePoints(viewByValue, bucketsForViewByValue, laneIds, j + 1) == lanePrefix + [pointData];
      assert before + (lanePrefix + [pointData]) == (before + lanePrefix) + [pointData];
      PushPoint(pointData, bands, allSeries, start, before + lanePrefix);
      j := j + 1;
    }
  }

  /** Lines 298-299: `allSeries[getSeriesIndex(value)].data.push(pointData)`. */
  method PushPoint(pointData: Point, bands: seq<ThresholdBand>, allSeries: array<Series>,
                   ghost start: seq<Series>, ghost done: seq<Point>)
    requires |bands| > 0 && allSeries.Length == |bands| + 1 && |start| == |bands| + 1
    requires allSeries[..] == Distributed(start, done, bands)
    modifies allSeries
    ensures allSeries[..] == Distributed(start, done + [pointData], bands)
  {
    var seriesIndex := GetSeriesIndex(pointData.score, bands);
    DistributedAppend(start, done, pointData, bands);
    ghost var current := allSeries[..];
    allSeries[seriesIndex] := allSeries[seriesIndex].(data := allSeries[seriesIndex].data + [pointData]);
    assert allSeries[..] == current[seriesIndex := current[seriesIndex].(data := current[seriesIndex].data + [pointData])];
  }

  /** One point per entry: the points number exactly the (lane, time) entries. */
  lemma {:induction false} ChartPointsCount(md: MetricsData, laneIds: seq<string>, m: nat)
    requires WellFormed(md) && m <= |md.keys|
    ensures |ChartPoints(md, laneIds, m)| == EntryCount(md, m)
  {
    if m > 0 {
      var lane := md.keys[m - 1];
      var here := LanePoints(lane, md.entries[lane], laneIds, |md.entries[lane].keys|);
      ChartPointsCount(md, laneIds, m - 1);
      assert ChartPoints(md, laneIds, m) == ChartPoints(md, laneIds, m - 1) + here;
      assert EntryCount(md, m) == EntryCount(md, m - 1) + |here|;
    }
  }

  lemma {:induction false} LanePointsAt(lane: string, times: LaneTimes, laneIds: seq<string>, n: nat, b: nat)
    requires times.Valid() && b < n <= |times.keys|
    ensures LanePoints(lane, times, laneIds, n)[b] == Point(times.keys[b], LaneY(laneIds, lane), times.entries[times.keys[b]])
  {
    if b < n - 1 {
      LanePointsAt(lane, times, laneIds, n - 1, b);
    }
  }

  lemma {:induction false} ChartPointsHoldLane(md: MetricsData, laneIds: seq<string>, m: nat, a: nat, p: Point)
    requires WellFormed(md) && a < m <= |md.keys|
    requires p in LanePoints(md.keys[a], md.entries[md.keys[a]], laneIds, |md.entries[md.keys[a]].keys|)
    ensures p in ChartPoints(md, laneIds, m)
  {
    var lane := md.keys[m - 1];
    var prev := ChartPoints(md, laneIds, m - 1);
    var here := LanePoints(lane, md.entries[lane], laneIds, |md.entries[lane].keys|);
    assert ChartPoints(md, laneIds, m) == prev + here;
    if a < m - 1 {
      ChartPointsHoldLane(md, laneIds, m - 1, a, p);
      assert p in prev;
    } else {
      assert p in here;
    }
  }

  /** Every (lane, time) entry has its point among the assembled points: at
      the lane's row, carrying the entry's value as its score. */
  lemma EntryHasPoint(md: MetricsData, laneIds: seq<string>, lane: string, time: string)
    requires WellFormed(md) && lane in md.entries && time in md.entries[lane].entries
    ensures Point(time, LaneY(laneIds, lane), md.entries[lane].entries[time]) in AllPoints(md, laneIds)
  {
    var times := md.entries[lane];
    var a :| 0 <= a < |md.keys| && md.keys[a] == lane;
    var b :| 0 <= b < |times.keys| && times.keys[b] == time;
    LanePointsAt(lane, times, laneIds, |times.keys|, b);
    ChartPointsHoldLane(md, laneIds, |md.keys|, a, Point(time, LaneY(laneIds, lane), times.entries[time]));
  }

  /** The total number of points equals the total number of entries. */
  lemma AllPointsCount(md: MetricsData, laneIds: seq<string>)
    requires WellFormed(md)
    ensures |AllPoints(md, laneIds)| == EntryCount(md, |md.keys|)
  {
    ChartPointsCount(md, laneIds, |md.keys|);
  }

  /** The sizes of series `0` to `n - 1`. */
  function SeriesSizes(ps: seq<Point>, bands: seq<ThresholdBand>, n: nat): nat
    requires |bands| > 0
  {
    if n == 0 then 0 else SeriesSizes(ps, bands, n - 1) + |InSeries(ps, bands, n - 1)|
  }

  lemma {:induction false} SeriesSizesAppend(ps: seq<Point>, p: Point, bands: seq<ThresholdBand>, n: nat)
    requires |bands| > 0
    ensures SeriesSizes(ps + [p], bands, n) == SeriesSizes(ps, bands, n) + (if SeriesIndex(p.score, bands) < n then 1 else 0)
  {
    if n > 0 {
      var k := SeriesIndex(p.score, bands);
      SeriesSizesAppend(ps, p, bands, n - 1);
      InSeriesAppend(ps, p, bands, n - 1);
      assert |InSeries(ps + [p], bands, n - 1)| == |InSeries(ps, bands, n - 1)| + (if k == n - 1 then 1 else 0);
    }
  }

  lemma {:induction false} SeriesSizesNone(bands: seq<ThresholdBand>, n: nat)
    requires |bands| > 0
    ensures SeriesSizes([], bands, n) == 0
  {
    if n > 0 {
      SeriesSizesNone(bands, n - 1);
    }
  }

  /** The series partition the points: each lands in exactly one of the
      `|bands| + 1` series, so their sizes add up to the number of points. */
  lemma {:induction false} SeriesPartitionPoints(ps: seq<Point>, bands: seq<ThresholdBand>)
    requires |bands| > 0
    ensures SeriesSizes(ps, bands, |bands| + 1) == |ps|
  {
    if ps == [] {
      SeriesSizesNone(bands, |bands| + 1);
    } else {
      var init, last := ps[..|ps| - 1], ps[|ps| - 1];
      SeriesPartitionPoints(init, bands);
      assert ps == init + [last];
      SeriesSizesAppend(init, last, bands, |bands| + 1);
      assert SeriesIndex(last.score, bands) < |bands| + 1;
    }
  }

  /** `laneIds[y - 0.5]` at line 452: a lane label when `y - 0.5` is a
      whole-number index of the array, `undefined` otherwise. */
  function HoverLane(laneIds: seq<string>, y: real): (r: Option<string>)
    ensures forall i :: 0 <= i < |laneIds| && y == i as real + 0.5 ==> r == Some(laneIds[i])
    ensures r.Some? ==> exists i :: 0 <= i < |laneIds| && y == i as real + 0.5 && r.value == laneIds[i]
  {
    var h := y - 0.5;
    if h.Floor as real == h && 0 <= h.Floor < |laneIds| then Some(laneIds[h.Floor]) else None
  }

  /** Hovering a point recovers its lane when the lane is one of the rows;
      a lane that is not (index -1) maps to `undefined`. */
  lemma HoverRecoversLane(laneIds: seq<string>, lane: string)
    ensures lane in laneIds ==> HoverLane(laneIds, LaneY(laneIds, lane)) == Some(lane)
    ensures lane !in laneIds ==> HoverLane(laneIds, LaneY(laneIds, lane)) == None
  {
    var i := IndexOf(laneIds, lane);
    assert (i as real + 0.5) - 0.5 == i as real;
    assert (i as real).Floor == i;
  }

  /** For the reducer's output and an ordering of its lanes: every lane has
      a row, so every entry's point sits within `[0, |laneIds|]` and hovering
      it gives back its lane. */
  lemma ReducedPointsHaveRows(aggregations: Option<Response>, schemas: Schemas, laneIds: seq<string>,
                              lane: string, time: string)
    requires Reduce(aggregations, schemas).Ok?
    requires multiset(laneIds) == multiset(Reduce(aggregations, schemas).value.aggViewByOrder)
    requires var md := Reduce(aggregations, schemas).value.metricsData;
      lane in md.entries && time in md.entries[lane].entries
    ensures var md := Reduce(aggregations, schemas).value.metricsData;
      && Point(time, LaneY(laneIds, lane), md.entries[lane].entries[time]) in AllPoints(md, laneIds)
      && 0.0 < LaneY(laneIds, lane) < |laneIds| as real
      && HoverLane(laneIds, LaneY(laneIds, lane)) == Some(lane)
  {
    var r := Reduce(aggregations, schemas).value;
    ReducedLanesAreListed(aggregations, schemas);
    assert lane in multiset(r.aggViewByOrder);
    assert lane in laneIds;
    EntryHasPoint(r.metricsData, laneIds, lane, time);
    HoverRecoversLane(laneIds, lane);
  }

  /** What flot reports under the mouse: the point's index within its
      series, that series' position in `allSeries`, and the y the point was
      plotted at (`item.series.data[item.dataIndex][1]`). */
  datatype HoverItem = HoverItem(seriesIndex: nat, dataIndex: nat, y: real)

  /** The tooltip effect of one `plothover` event. The tooltip shows the hovered
      item's time and, after the metric's label (`makeLabel()`), its score;
      it never shows the lane label. The handler also computes
      the lane label `laneIds[y - 0.5]` and passes it as a second argument,
      but `showTooltip` at line 517 declares one parameter, so the label is
      discarded; `ignoredLaneLabel` records that unused argument. */
  datatype TooltipAction = ShowTooltip(item: HoverItem, ignoredLaneLabel: Option<string>) | KeepTooltip | RemoveTooltip

  /** Lines 441-462 on values: the next `_previousHoverPoint` and the tooltip
      effect. Only the point's `dataIndex` is remembered. */
  function HoverTransition(previous: Option<nat>, item: Option<HoverItem>, laneIds: seq<string>): (r: (Option<nat>, TooltipAction))
    ensures r.1.ShowTooltip? <==> item.Some? && previous != Some(item.value.dataIndex)
    ensures r.1.ShowTooltip? ==> r.1.item == item.value
    ensures r.1 == RemoveTooltip <==> item.None?
    ensures r.0.None? <==> item.None?
    ensures item.Some? ==> r.0 == Some(item.value.dataIndex)
  {
    match item
    case None => (None, RemoveTooltip)
    case Some(it) =>
      if previous != Some(it.dataIndex) then (Some(it.dataIndex), ShowTooltip(it, HoverLane(laneIds, it.y)))
      else (previous, KeepTooltip)
  }

  /** Staying on a point shows its tooltip once: a second event for the same
      point changes nothing. */
  lemma HoverShowsOnce(previous: Option<nat>, it: HoverItem, laneIds: seq<string>)
    ensures var (next, _) := HoverTransition(previous, Some(it), laneIds);
      HoverTransition(next, Some(it), laneIds) == (next, KeepTooltip)
  {
  }

  /** Leaving the points forgets the last one, so the next point hovered
      always gets a tooltip for that point. */
  lemma HoverAfterLeaving(previous: Option<nat>, it: HoverItem, laneIds: seq<string>)
    ensures var (next, action) := HoverTransition(previous, None, laneIds);
      action == RemoveTooltip &&
      HoverTransition(next, Some(it), laneIds) == (Some(it.dataIndex), ShowTooltip(it, HoverLane(laneIds, it.y)))
  {
  }

  /** Since only `dataIndex` is compared, moving to the point with the same
      index in another series keeps the earlier tooltip. */
  lemma HoverComparesIndexOnly(a: HoverItem, b: HoverItem, laneIds: seq<string>)
    requires a.dataIndex == b.dataIndex
    ensures var (next, _) := HoverTransition(None, Some(a), laneIds);
      HoverTransition(next, Some(b), laneIds).1 == KeepTooltip
  {
  }

  /** The hover state kept on the visualization's scope. */
  class HoverTracker {
    var previousHoverPoint: Option<nat>

    /** Line 212: nothing hovered yet. */
    constructor ()
      ensures previousHoverPoint == None
    {
      previousHoverPoint := None;
    }

    /** Line 44: a digest without a response forgets the hovered point. */
    method Reset()
      modifies this
      ensures previousHoverPoint == None
    {
      previousHoverPoint := None;
    }

    /** The `plothover` handler at lines 441-462. */
    method OnPlotHover(item: Option<HoverItem>, laneIds: seq<string>) returns (action: TooltipAction)
      modifies this
      ensures (previousHoverPoint, action) == HoverTransition(old(previousHoverPoint), item, laneIds)
    {
      if item.Some? {
        if previousHoverPoint != Some(item.value.dataIndex) {
          previousHoverPoint := Some(item.value.dataIndex);
          var laneLabel := HoverLane(laneIds, item.value.y);
          action := ShowTooltip(item.value, laneLabel);
        } else {
          action := KeepTooltip;
        }
      } else {
        action := RemoveTooltip;
        previousHoverPoint := None;
      }
    }
  }

  /** The guard of the `render` event at lines 217-218. */
  predicate ShouldRender(aggCount: nat, timeSplitDefined: bool, metricsData: MetricsData): (r: bool)
    ensures r ==> aggCount != 0 && timeSplitDefined
    ensures metricsData.Valid() ==>
      (r <==> aggCount != 0 && timeSplitDefined && exists lane :: lane in metricsData.entries)
  {
    HasKeys(metricsData);
    aggCount != 0 && timeSplitDefined && |metricsData.keys| > 0
  }

  /** A chart is only drawn for a response whose metric and time split
      schemas are both present. */
  lemma RenderNeedsSchemas(aggregations: Option<Response>, schemas: Schemas, aggCount: nat)
    requires Reduce(aggregations, schemas).Ok?
    requires ShouldRender(aggCount, schemas.timeSplitId.Some?, Reduce(aggregations, schemas).value.metricsData)
    ensures aggregations.Some? && schemas.metric.Some? && schemas.timeSplitId.Some?
  {
  }

  /** A UTF-16 code unit: JavaScript's `length` and `substring` count these. */
  newtype CodeUnit = x: int | 0 <= x < 0x1_0000

  /** The high and low surrogates of a character outside the Basic
      Multilingual Plane. */
  function HighSurrogate(c: int): CodeUnit
    requires 0x1_0000 <= c < 0x11_0000
  {
    (0xD800 + (c - 0x1_0000) / 0x400) as CodeUnit
  }

  function LowSurrogate(c: int): CodeUnit
    requires 0x1_0000 <= c < 0x11_0000
  {
    (0xDC00 + (c - 0x1_0000) % 0x400) as CodeUnit
  }

  /** The UTF-16 units of one character. */
  function CharUnits(ch: char): (r: seq<CodeUnit>)
    ensures |r| == (if ch as int < 0x1_0000 then 1 else 2)
  {
    var c := ch as int;
    if c < 0x1_0000 then [c as CodeUnit] else [HighSurrogate(c), LowSurrogate(c)]
  }

  /** A string as JavaScript holds it: one unit per character of the Basic
      Multilingual Plane, a surrogate pair for any other character. */
  function Utf16(s: string): (r: seq<CodeUnit>)
  {
    if s == [] then [] else CharUnits(s[0]) + Utf16(s[1..])
  }

  /** Every character takes one or two units. */
  lemma {:induction false} Utf16Length(s: string)
    ensures |s| <= |Utf16(s)| <= 2 * |s|
  {
    if s != [] {
      Utf16Length(s[1..]);
    }
  }

  predicate InBmp(s: string) {
    forall i :: 0 <= i < |s| ==> s[i] as int < 0x1_0000
  }

  lemma {:induction false} Utf16Append(a: string, b: string)
    ensures Utf16(a + b) == Utf16(a) + Utf16(b)
  {
    if a != [] {
      var rest := a[1..];
      Utf16Append(rest, b);
      var ab := a + b;
      assert ab[0] == a[0] && ab[1..] == rest + b;
      assert Utf16(ab) == CharUnits(a[0]) + Utf16(rest + b);
      assert Utf16(a) == CharUnits(a[0]) + Utf16(rest);
      var u, v, w := CharUnits(a[0]), Utf16(rest), Utf16(b);
      assert u + (v + w) == (u + v) + w;
    } else {
      assert a + b == b;
    }
  }

  /** Without characters beyond the Basic Multilingual Plane every character
      is one unit. */
  lemma {:induction false} Utf16InBmp(s: string)
    requires InBmp(s)
    ensures |Utf16(s)| == |s|
    ensures forall i :: 0 <= i < |s| ==> Utf16(s)[i] == s[i] as int as CodeUnit
  {
    if s != [] {
      assert InBmp(s[1..]) by {
        forall i | 0 <= i < |s| - 1
          ensures s[1..][i] as int < 0x1_0000
        {
          assert s[1..][i] == s[i + 1];
        }
      }
      Utf16InBmp(s[1..]);
      var r := Utf16(s);
      assert r == [s[0] as int as CodeUnit] + Utf16(s[1..]);
      forall i | 0 <= i < |s|
        ensures r[i] == s[i] as int as CodeUnit
      {
        if i > 0 {
          assert r[i] == Utf16(s[1..])[i - 1];
          assert s[1..][i - 1] == s[i];
        }
      }
    }
  }

  /** Line 379: a label of 28 UTF-16 units or more is cut to its first 25
      units and an ellipsis. */
  function TruncateLabel(labelText: string): (r: seq<CodeUnit>)
    ensures |r| <= 28
    ensures |Utf16(labelText)| < 28 ==> r == Utf16(labelText)
    ensures 28 <= |Utf16(labelText)| ==> |r| == 28 && r[..25] == Utf16(labelText)[..25] && r[25..] == Utf16("...")
  {
    var units := Utf16(labelText);
    if |units| < 28 then units else units[..25] + Utf16("...")
  }

  /** For a label within the Basic Multilingual Plane units are characters:
      one of 28 characters or more becomes its first 25 characters and `...`. */
  lemma TruncateLabelInBmp(labelText: string)
    requires InBmp(labelText)
    ensures TruncateLabel(labelText) == Utf16(if |labelText| < 28 then labelText else labelText[..25] + "...")
  {
    Utf16InBmp(labelText);
    if 28 <= |labelText| {
      var head := labelText[..25];
      assert labelText == head + labelText[25..];
      Utf16Append(head, labelText[25..]);
      Utf16Append(head, "...");
      assert InBmp(head) by {
        forall i | 0 <= i < 25
          ensures head[i] as int < 0x1_0000
        {
          assert head[i] == labelText[i];
        }
      }
      Utf16InBmp(head);
    }
  }

  /** The units of `n` copies of a character beyond the Basic Multilingual
      Plane: `n` surrogate pairs. */
  lemma {:induction false} Utf16Repeated(ch: char, n: nat)
    requires 0x1_0000 <= ch as int
    ensures |Utf16(seq(n, _ => ch))| == 2 * n
    ensures forall i :: 0 <= i < n ==>
      Utf16(seq(n, _ => ch))[2 * i] == HighSurrogate(ch as int) &&
      Utf16(seq(n, _ => ch))[2 * i + 1] == LowSurrogate(ch as int)
  {
    if n > 0 {
      var s := seq(n, _ => ch);
      var t := seq(n - 1, _ => ch);
      assert s[1..] == t;
      Utf16Repeated(ch, n - 1);
      var r := Utf16(s);
      assert r == [HighSurrogate(ch as int), LowSurrogate(ch as int)] + Utf16(t);
      forall i | 0 <= i < n
        ensures r[2 * i] == HighSurrogate(ch as int) && r[2 * i + 1] == LowSurrogate(ch as int)
      {
        if i > 0 {
          assert r[2 * i] == Utf16(t)[2 * (i - 1)];
          assert r[2 * i + 1] == Utf16(t)[2 * (i - 1) + 1];
        }
      }
    }
  }

  /** Fourteen U+1F600 characters are 28 units long, so the label is cut, and
      the cut after unit 25 leaves a lone high surrogate before the `...`. */
  lemma TruncateLabelSplitsPair()
    ensures var labelText := seq(14, _ => '\U{1F600}');
      && |Utf16(labelText)| == 28
      && TruncateLabel(labelText)[24] == 0xD83D
      && TruncateLabel(labelText)[25..] == Utf16("...")
  {
    var labelText := seq(14, _ => '\U{1F600}');
    Utf16Repeated('\U{1F600}', 14);
    assert Utf16(labelText)[2 * 12] == HighSurrogate(0x1F600);
  }

  /** A y-axis tick: position and label. */
  datatype Tick = Tick(position: real, text: seq<CodeUnit>)

  /** A horizontal grid band `{yaxis: {from, to}, color}`. */
  datatype Marking = Marking(from: real, to: real, color: string)

  const DividerColor := "#d5d5d5"

  /** Line 368: the shade of every other lane depends on the dark theme. */
  function AlternateLaneColor(darkTheme: bool): (r: string)
    ensures r != DividerColor
  {
    if darkTheme then "#4a4a4a" else "#f5f5f5"
  }

  /** The divider along the bottom of row `i` (flot draws row 0 at the bottom). */
  function Divider(i: nat): Marking {
    Marking(i as real, i as real + 0.03, DividerColor)
  }

  /** The shading of lane `i`, above its divider. */
  function Shade(i: nat, alternateLaneColor: string): Marking {
    Marking(i as real + 0.03, i as real + 1.0, alternateLaneColor)
  }

  /** What the loop at lines 375-397 pushes for lane `i`. */
  function LaneMarkings(i: nat, alternateLaneColor: string): (r: seq<Marking>)
    ensures forall k :: 0 <= k < |r| ==>
      i as real <= r[k].from < r[k].to <= i as real + 1.0 && (r[k].color == DividerColor || r[k].color == alternateLaneColor)
    ensures |r| == (if i > 0 then 1 else 0) + (if i % 2 == 1 then 1 else 0)
    ensures i > 0 ==> r[0] == Divider(i)
    ensures i % 2 == 1 ==> r[|r| - 1] == Shade(i, alternateLaneColor)
  {
    (if i > 0 then [Divider(i)] else []) + (if i % 2 != 0 then [Shade(i, alternateLaneColor)] else [])
  }

  /** The markings of the first `n` lanes, in push order. */
  function Markings(n: nat, alternateLaneColor: string): (r: seq<Marking>)
    ensures |r| <= 2 * n
    ensures forall k :: 0 <= k < |r| ==> r[k].to <= n as real
  {
    if n == 0 then [] else Markings(n - 1, alternateLaneColor) + LaneMarkings(n - 1, alternateLaneColor)
  }

  /** With `n` lanes there are `n - 1` dividers and `n / 2` shades. */
  lemma {:induction false} MarkingCount(n: nat, alternateLaneColor: string)
    requires n > 0
    ensures |Markings(n, alternateLaneColor)| == (n - 1) + n / 2
  {
    if n > 1 {
      var i := n - 1;
      MarkingCount(i, alternateLaneColor);
      assert |LaneMarkings(i, alternateLaneColor)| == 1 + i % 2;
      var q, r := i / 2, i % 2;
      assert i == 2 * q + r && 0 <= r < 2;
      if r == 0 {
        assert n == 2 * q + 1;
        assert n / 2 == q;
      } else {
        assert n == 2 * q + 2;
        assert n / 2 == q + 1;
      }
    }
  }

  /** A `[i, i + 0.03]` divider along the bottom of every row but row 0. */
  lemma {:induction false} MarkingsHaveDividers(n: nat, alternateLaneColor: string)
    ensures forall i: nat :: 0 < i < n ==> Divider(i) in Markings(n, alternateLaneColor)
  {
    if n > 0 {
      var c := alternateLaneColor;
      var prev, here := Markings(n - 1, c), LaneMarkings(n - 1, c);
      MarkingsHaveDividers(n - 1, c);
      assert Markings(n, c) == prev + here;
      if n > 1 {
        assert here[0] == Divider(n - 1);
      }
    }
  }

  /** A `[i + 0.03, i + 1]` shade on every odd lane. */
  lemma {:induction false} MarkingsHaveShades(n: nat, alternateLaneColor: string)
    ensures forall i: nat :: i < n && i % 2 == 1 ==> Shade(i, alternateLaneColor) in Markings(n, alternateLaneColor)
  {
    if n > 0 {
      var c := alternateLaneColor;
      var prev, here := Markings(n - 1, c), LaneMarkings(n - 1, c);
      MarkingsHaveShades(n - 1, c);
      assert Markings(n, c) == prev + here;
      if (n - 1) % 2 == 1 {
        assert here[|here| - 1] == Shade(n - 1, c);
      }
    }
  }

  /** Nothing else: every marking lies inside the y-axis `(0, n]` and has
      the divider or the alternate lane colour. */
  lemma {:induction false} MarkingsWithinAxis(n: nat, alternateLaneColor: string)
    ensures forall m :: m in Markings(n, alternateLaneColor) ==>
      0.0 < m.from < m.to <= n as real &&
      (m.color == DividerColor || m.color == alternateLaneColor)
  {
    if n > 0 {
      var c := alternateLaneColor;
      var prev, here := Markings(n - 1, c), LaneMarkings(n - 1, c);
      MarkingsWithinAxis(n - 1, c);
      assert Markings(n, c) == prev + here;
      forall m: Marking | m in prev + here
        ensures 0.0 < m.from < m.to <= n as real && (m.color == DividerColor || m.color == c)
      {
        if m !in prev {
          assert m in here;
          var k := (n - 1) as real;
          if m == Divider(n - 1) {
            assert n > 1 && m.from == k && m.to == k + 0.03;
          } else {
            assert m == Shade(n - 1, c);
            assert m.from == k + 0.03 && m.to == k + 1.0;
          }
        }
      }
    }
  }

  /** Lines 370-401: the y-axis spans one unit per lane, with one tick at the
      centre of each lane, the lane markings, and the element height of 32
      pixels per lane plus 50 for the axis labels. */
  method LayoutLanes(laneIds: seq<string>, darkTheme: bool)
      returns (yaxisMax: nat, ticks: seq<Tick>, markings: seq<Marking>, height: nat)
    ensures yaxisMax == |laneIds|
    ensures |ticks| == |laneIds|
    ensures forall i :: 0 <= i < |laneIds| ==> ticks[i] == Tick(i as real + 0.5, TruncateLabel(laneIds[i]))
    ensures markings == Markings(|laneIds|, AlternateLaneColor(darkTheme))
    ensures height == |laneIds| * 32 + 50
  {
    var alternateLaneColor := AlternateLaneColor(darkTheme);
    yaxisMax := |laneIds|;
    ticks := [];
    markings := [];
    for i := 0 to |laneIds|
      invariant |ticks| == i
      invariant forall j :: 0 <= j < i ==> ticks[j] == Tick(j as real + 0.5, TruncateLabel(laneIds[j]))
      invariant markings == Markings(i, alternateLaneColor)
    {
      var labelText := TruncateLabel(laneIds[i]);
      ticks := ticks + [Tick(i as real + 0.5, labelText)];
      ghost var before := markings;
      if i > 0 {
        markings := markings + [Marking(i as real, i as real + 0.03, DividerColor)];
      }
      if i % 2 != 0 {
        markings := markings + [Marking(i as real + 0.03, i as real + 1.0, alternateLaneColor)];
      }
      assert markings == before + LaneMarkings(i, alternateLaneColor);
    }
    height := |laneIds| * 32 + 50;
  }

  /** `vis.params` as far as rendering reads it. */
  datatype VisParams = VisParams(
    thresholdBands: seq<ThresholdBand>,
    unknownThresholdColor: string,
    alphabetSortLaneLabels: string)

  /** `renderSwimlane` up to the flot call: series, lane order, points,
      ticks, markings and height. Without bands it runs only when there is
      no entry to classify. */
  method RenderSwimlane(metricsData: MetricsData, aggViewByOrder: seq<string>, params: VisParams,
                        leq: (string, string) -> bool, darkTheme: bool)
      returns (allSeries: array<Series>, laneIds: seq<string>, yaxisMax: nat, ticks: seq<Tick>,
               markings: seq<Marking>, height: nat)
    requires WellFormed(metricsData)
    requires |params.thresholdBands| > 0 || EntryCount(metricsData, |metricsData.keys|) == 0
    ensures fresh(allSeries) && allSeries.Length == |params.thresholdBands| + 1
    ensures allSeries[0].seriesLabel == UnknownSeries && allSeries[0].color == params.unknownThresholdColor
    ensures allSeries[0].thresholdValue == None
    ensures forall i :: 0 <= i < |params.thresholdBands| ==>
      && allSeries[i + 1].seriesLabel == BandSeries(i)
      && allSeries[i + 1].color == params.thresholdBands[i].color
      && allSeries[i + 1].thresholdValue == Some(params.thresholdBands[i].value)
    ensures |params.thresholdBands| > 0 ==> forall k :: 0 <= k < allSeries.Length ==>
      allSeries[k].data == InSeries(AllPoints(metricsData, laneIds), params.thresholdBands, k)
    ensures |params.thresholdBands| == 0 ==> allSeries[0].data == []
    ensures multiset(laneIds) == multiset(aggViewByOrder)
    ensures params.alphabetSortLaneLabels != "asc" && params.alphabetSortLaneLabels != "desc" ==>
      |laneIds| == |aggViewByOrder| &&
      forall i :: 0 <= i < |laneIds| ==> laneIds[i] == aggViewByOrder[|aggViewByOrder| - 1 - i]
    ensures params.alphabetSortLaneLabels == "desc" ==>
      laneIds == SortBy(aggViewByOrder, leq) && (TotalPreorder(leq) ==> SortedBy(laneIds, leq))
    ensures params.alphabetSortLaneLabels == "asc" ==>
      && laneIds == Reverse(SortBy(aggViewByOrder, leq))
      && (TotalPreorder(leq) ==> forall i, j :: 0 <= i < j < |laneIds| ==> leq(laneIds[j], laneIds[i]))
    ensures yaxisMax == |laneIds| && height == |laneIds| * 32 + 50
    ensures |ticks| == |laneIds|
    ensures forall i :: 0 <= i < |laneIds| ==> ticks[i] == Tick(i as real + 0.5, TruncateLabel(laneIds[i]))
    ensures markings == Markings(|laneIds|, AlternateLaneColor(darkTheme))
  {
    allSeries := BuildSeries(params.thresholdBands, params.unknownThresholdColor);
    forall k | 0 <= k < allSeries.Length
      ensures allSeries[k].data == []
    {
      if k > 0 {
        var i := k - 1;
        assert allSeries[i + 1] == Series(BandSeries(i), params.thresholdBands[i].color, Some(params.thresholdBands[i].value), []);
      }
    }
    laneIds := OrderLanes(aggViewByOrder, params.alphabetSortLaneLabels, leq);
    AssemblePoints(metricsData, laneIds, params.thresholdBands, allSeries);
    yaxisMax, ticks, markings, height := LayoutLanes(laneIds, darkTheme);
  }

  /** Lines 477-478: pad a selection by a quarter interval before and a full
      interval after. */
  function ZoomRange(zoomFrom: real, zoomTo: real, aggIntervalMs: real): (r: (real, real))
    ensures r.1 - zoomTo == 4.0 * (zoomFrom - r.0)
    ensures 0.0 <= aggIntervalMs ==> r.0 <= zoomFrom && zoomTo <= r.1
  {
    (zoomFrom - aggIntervalMs / 4.0, zoomTo + aggIntervalMs)
  }

  /** The padded range contains the selection and is wider by one and a
      quarter intervals. */
  lemma ZoomRangeCoversSelection(zoomFrom: real, zoomTo: real, aggIntervalMs: real)
    requires 0.0 <= aggIntervalMs
    ensures var (from, to) := ZoomRange(zoomFrom, zoomTo, aggIntervalMs);
      from <= zoomFrom && zoomTo <= to && to - from == (zoomTo - zoomFrom) + aggIntervalMs * 5.0 / 4.0
  {
  }

  /** A ten-minute interval and the selection [1000000, 2000000]. */
  lemma ZoomRangeExample()
    ensures ZoomRange(1000000.0, 2000000.0, 600000.0) == (850000.0, 2600000.0)
  {
  }
}
