/** The threshold classifier `getSeriesIndex`: a value goes to the series of
    the band it falls in, series 0 being the 'unknown' series for values below
    the lowest threshold. */
module Thresholds {

  /** One entry of `vis.params.thresholdBands`. */
  datatype ThresholdBand = ThresholdBand(value: real, color: string)

  /** The bands the visualization is registered with. */
  const DefaultThresholdBands: seq<ThresholdBand> := [
    ThresholdBand(0.0, "#d2e9f7"),
    ThresholdBand(3.0, "#8bc8fb"),
    ThresholdBand(25.0, "#ffdd00"),
    ThresholdBand(50.0, "#ff7e00"),
    ThresholdBand(75.0, "#fe5050")
  ]

  ghost predicate Ascending(bands: seq<ThresholdBand>) {
    forall i, j :: 0 <= i < j < |bands| ==> bands[i].value <= bands[j].value
  }

  /** The least index from `from` on whose threshold exceeds `value`, or
      `|bands|` when there is none. */
  function FirstAbove(value: real, bands: seq<ThresholdBand>, from: nat): (r: nat)
    requires from <= |bands|
    ensures from <= r <= |bands|
    ensures r < |bands| ==> value < bands[r].value
    ensures forall j :: from <= j < r ==> bands[j].value <= value
    decreases |bands| - from
  {
    if from == |bands| then from
    else if value < bands[from].value then from
    else FirstAbove(value, bands, from + 1)
  }

  /** The series a value belongs to: 0 below the first threshold, `|bands|`
      at or above the last one, and otherwise the least `i` whose threshold
      exceeds the value, whether or not the bands are sorted. */
  function SeriesIndex(value: real, bands: seq<ThresholdBand>): (r: nat)
    requires |bands| > 0
    ensures r <= |bands|
    ensures r == 0 <==> value < bands[0].value
    ensures r == |bands| <==> bands[0].value <= value && bands[|bands| - 1].value <= value
    ensures 0 < r < |bands| ==> value < bands[r].value && forall j :: 0 <= j < r ==> bands[j].value <= value
  {
    if value < bands[0].value then 0
    else if value >= bands[|bands| - 1].value then |bands|
    else FirstAbove(value, bands, 0)
  }

  /** `getSeriesIndex`: a linear scan that stops at the first threshold
      above the value. Reading `bands[0]` of an empty list throws, so the
      bands must not be empty. */
  method GetSeriesIndex(value: real, bands: seq<ThresholdBand>) returns (seriesIndex: nat)
    requires |bands| > 0
    ensures seriesIndex == SeriesIndex(value, bands)
  {
    seriesIndex := 0;
    if value < bands[0].value {
      // Below every threshold: series 0.
      seriesIndex := 0;
    } else if value >= bands[|bands| - 1].value {
      seriesIndex := |bands|;
    } else {
      for i := 0 to |bands|
        invariant forall j :: 0 <= j < i ==> bands[j].value <= value
      {
        if value < bands[i].value {
          seriesIndex := i;
          break;
        }
      }
      assert forall j :: 0 <= j < seriesIndex ==> bands[j].value <= value;
      assert seriesIndex < |bands| && value < bands[seriesIndex].value;
    }
  }

  /** With ascending thresholds the series are the half-open intervals
      between consecutive thresholds: a value in `[bands[i-1], bands[i])`
      goes to series `i`, and one at or above the last threshold to the top. */
  lemma SeriesIndexOfInterval(value: real, bands: seq<ThresholdBand>, i: nat)
    requires Ascending(bands) && 0 < i <= |bands|
    requires bands[i - 1].value <= value && (i < |bands| ==> value < bands[i].value)
    ensures SeriesIndex(value, bands) == i
  {
  }

  /** With ascending thresholds a larger value never goes to a lower series. */
  lemma SeriesIndexMonotonic(v1: real, v2: real, bands: seq<ThresholdBand>)
    requires |bands| > 0 && Ascending(bands) && v1 <= v2
    ensures SeriesIndex(v1, bands) <= SeriesIndex(v2, bands)
  {
  }

  /** The default bands 0, 3, 25, 50 and 75: below the lowest threshold
      and at or above the highest. */
  lemma DefaultBandsEdges()
    ensures SeriesIndex(-1.0, DefaultThresholdBands) == 0
    ensures SeriesIndex(75.0, DefaultThresholdBands) == 5
    ensures SeriesIndex(1000.0, DefaultThresholdBands) == 5
  {
  }

  /** The default bands on values between thresholds: a threshold value
      belongs to the band it starts. */
  lemma DefaultBandsExamples()
    ensures SeriesIndex(0.0, DefaultThresholdBands) == 1
    ensures SeriesIndex(2.9, DefaultThresholdBands) == 1
    ensures SeriesIndex(3.0, DefaultThresholdBands) == 2
    ensures SeriesIndex(74.9, DefaultThresholdBands) == 4
  {
    assert Ascending(DefaultThresholdBands);
    SeriesIndexOfInterval(0.0, DefaultThresholdBands, 1);
    SeriesIndexOfInterval(2.9, DefaultThresholdBands, 1);
    SeriesIndexOfInterval(3.0, DefaultThresholdBands, 2);
    SeriesIndexOfInterval(74.9, DefaultThresholdBands, 4);
  }
}
