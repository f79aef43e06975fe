# Prelert swimlane visualization: a Dafny model

The Prelert swimlane is a Kibana visualization. It draws a metric over
time, with one horizontal lane per value of a "view by" field. Every
(lane, time) cell is a point whose colour comes from a list of threshold
bands. This project models the data-shaping core of its controller,
`public/prelert_swimlane_vis_controller.js`, and proves what that code
promises.

- **Aggregation reducer** (`processAggregations`).
  - Turns the nested Elasticsearch aggregation response into a JavaScript
    object mapping each lane label to its time → value object.
  - Also builds the list of lane labels in the order they arrived.
  - JavaScript objects are modelled as insertion-ordered dictionaries
    (`JsObject.Dict`). Re-assigning a key keeps its position.
  - Each bucket carries its key, its own `doc_count` and metric values, and
    its nested bucket aggregations. The metric's `getValue` (a function of
    one bucket's own data) and `makeLabel` are abstract parameters.
  - Reading a missing sub-aggregation throws a `TypeError` in the source.
    Here it is the `Err(MissingAggregation(id))` result.
- **Lane orderer.**
  - `off` reverses the arrival order.
  - `desc` sorts it with the locale comparison.
  - `asc` sorts it, then reverses.
  - The comparison is a parameter `leq`. Sorted order is proved whenever
    `leq` is a total preorder.
- **Threshold classifier** (`getSeriesIndex`). Maps a value to series 0
  (the "unknown" series, below the lowest threshold) or to series 1 through
  `|bands|`.
- **Series and point assembly.**
  - The array of `|bands| + 1` series is filled in place.
  - Every (lane, time) entry becomes one point at `y = indexOf(lane) + 0.5`.
  - Each point goes into the one series its value classifies to.
- **Axis layout.** One tick per lane with a truncated label (measured and
  cut in UTF-16 code units, as JavaScript strings are), the grid
  markings (a divider along the bottom of every row but row 0, and a shade
  on every odd row), and the element height.
- **Interaction state.**
  - Hover de-duplication is `_previousHoverPoint`, a class field. The
    handler recovers the lane from the point's y, but the tooltip function
    ignores that argument. The tooltip shows the hovered item's time and,
    after the metric's label (`makeLabel()`), its score; never the lane label.
  - The zoom selection is padded.
  - The visualization's interval control is synchronised with the
    aggregation that ran (`syncViewControls`). This may append a
    "Custom: …" option.

Host inputs are parameters:
- `vis.aggs.length`, the schemas present and the time split's interval;
- the dark-theme flag;
- the hovered item.

The default threshold bands and interval options of
`public/prelert_swimlane_vis.js` are constants, used in example lemmas.

Where the wording and the code differ, the model follows the code. The
comment above the label crop speaks of labels longer than 27 characters,
with a slip in its wording. At line 379 the code keeps any label shorter than
28 units and turns longer ones into 25 units plus `...`. So a cropped label
is 28 units long, and a 27-unit label is kept unchanged. The units are
UTF-16 code units, so a character outside the Basic Multilingual Plane
counts twice, and the cut can split its surrogate pair.

## Model

| member | source | states |
|---|---|---|
| JsObject.Put | public/prelert_swimlane_vis_controller.js:125 | assigning a property keeps the object's keys distinct and in insertion order, appending a new key and keeping the position of an existing one, and maps the key to the new value |
| JsObject.Empty | public/prelert_swimlane_vis_controller.js:103 | a fresh `{}` is a well-formed object with no properties |
| JsObject.HasKeys | public/prelert_swimlane_vis_controller.js:218 | `_.keys(o).length > 0` holds exactly when the object has some property |
| Aggregations.CollectTimes | public/prelert_swimlane_vis_controller.js:138-142 | the loop assigning `timesForViewBy[bucket.key]` builds exactly the lane object `TimesFor` of the buckets |
| Aggregations.ProcessAggregations | public/prelert_swimlane_vis_controller.js:102-153 | the imperative reducer returns exactly `Reduce` of the response and schemas, including the throwing cases |
| Aggregations.Reduce | public/prelert_swimlane_vis_controller.js:102-153 | whenever the reducer does not throw, its output object and every lane in it are well-formed insertion-ordered objects |
| Aggregations.ViewByLanes | public/prelert_swimlane_vis_controller.js:116-134 | the 'view by' loop yields well-formed lanes, and fails only with the time split's id as the missing aggregation |
| Aggregations.TimesFor | public/prelert_swimlane_vis_controller.js:128-142 | assigning `{value: getValue(bucket)}` under each time bucket's key, in order, always yields a well-formed lane object |
| Aggregations.TimesForKeys | public/prelert_swimlane_vis_controller.js:128-133 | a lane object has a property for a time exactly when some time bucket has that key |
| Aggregations.TimesForLastValue | public/prelert_swimlane_vis_controller.js:128-133 | each time property holds `getValue` of the last bucket with that key (later buckets overwrite) |
| Aggregations.TimesForHoldsLastBucket | public/prelert_swimlane_vis_controller.js:140-142 | the lane covers exactly the bucket keys, each with the last such bucket's value |
| Aggregations.TimesForDistinctKeys | public/prelert_swimlane_vis_controller.js:140-142 | with distinct bucket keys the lane enumerates one time per bucket, in response order |
| Aggregations.ViewByLanesOrder | public/prelert_swimlane_vis_controller.js:120-127 | when the branch does not throw, `aggViewByOrder` is the bucket keys in response order, one per bucket, and every bucket holds the time split |
| Aggregations.ViewByLanesListed | public/prelert_swimlane_vis_controller.js:122-125 | the lanes of the output are exactly the labels in `aggViewByOrder` |
| Aggregations.ViewByLanesLastBucket | public/prelert_swimlane_vis_controller.js:125-133 | a later duplicate 'view by' key replaces the earlier lane: each lane is the one built from the last bucket with its key |
| Aggregations.ViewByLanesFails | public/prelert_swimlane_vis_controller.js:127 | the 'view by' branch throws if and only if some bucket lacks the time split's sub-aggregation |
| Aggregations.LanesKeepOwnValues | public/prelert_swimlane_vis_controller.js:128-133 | two lanes with a bucket at the same time keep their own values: a count metric stores doc counts 5 and 7 as 5 and 7 |
| Aggregations.ReduceWithoutSchemasIsEmpty | public/prelert_swimlane_vis_controller.js:103-110 | without a response, metric or time split the data is the empty object and the order the empty list |
| Aggregations.ReduceViewBy | public/prelert_swimlane_vis_controller.js:116-134 | with a 'view by' split: it throws iff the split or a bucket's time split is missing; otherwise the order is the bucket keys in order, the lanes are exactly those labels, and each lane holds every nested time key of its last bucket with `getValue` of the last bucket per time |
| Aggregations.ReduceSingleLane | public/prelert_swimlane_vis_controller.js:135-147 | without a split: it throws iff the time aggregation is missing; otherwise exactly one lane named by `makeLabel()`, listed alone in the order, covering every top-level time bucket with its value |
| Aggregations.ReducedLanesAreListed | public/prelert_swimlane_vis_controller.js:102-153 | in every non-throwing case a label has a lane exactly when it is in `aggViewByOrder` |
| LaneOrder.OrderLanes | public/prelert_swimlane_vis_controller.js:265-282 | the lanes are always a permutation of `aggViewByOrder`; any setting other than `asc`/`desc` gives its exact reverse; `desc` gives the comparator sort (in order for a total preorder); `asc` gives the reverse of that sort (in descending order) |
| LaneOrder.SortBy | public/prelert_swimlane_vis_controller.js:269-272 | sorting keeps the number of labels and exactly the same labels |
| LaneOrder.Insert | public/prelert_swimlane_vis_controller.js:269-272 | one insertion step of the sort adds one label, the given one, and keeps all others |
| LaneOrder.Reverse | public/prelert_swimlane_vis_controller.js:274-282 | reversal keeps the number of labels and the same labels, and swaps the first and the last |
| LaneOrder.SortByPermutation | public/prelert_swimlane_vis_controller.js:269-272 | sorting only rearranges the labels |
| LaneOrder.InsertPermutation | public/prelert_swimlane_vis_controller.js:269-272 | inserting one label adds exactly that label |
| LaneOrder.InsertSorted | public/prelert_swimlane_vis_controller.js:269-272 | inserting into a sorted list keeps it sorted under a total preorder |
| LaneOrder.SortBySorted | public/prelert_swimlane_vis_controller.js:269-272 | under a total preorder the sorted labels are in comparator order |
| LaneOrder.ReverseAt | public/prelert_swimlane_vis_controller.js:276 | reversal puts element `k` at position `n - 1 - k` |
| LaneOrder.ReversePermutation | public/prelert_swimlane_vis_controller.js:281 | reversal only rearranges the labels |
| Thresholds.FirstAbove | public/prelert_swimlane_vis_controller.js:500-505 | the scan stops at the least index whose threshold exceeds the value, every threshold passed being at most the value |
| Thresholds.SeriesIndex | public/prelert_swimlane_vis_controller.js:489-510 | the series index is in `[0, |bands|]`: 0 exactly below the first threshold, `|bands|` exactly at or above both the first and last, otherwise the least index whose threshold exceeds the value |
| Thresholds.GetSeriesIndex | public/prelert_swimlane_vis_controller.js:489-510 | the loop with early exit returns `SeriesIndex` of the value |
| Thresholds.SeriesIndexOfInterval | public/prelert_swimlane_vis_controller.js:489-510 | with ascending bands a value in `[bands[i-1], bands[i])` goes to series `i`, one at or above the last to the top series |
| Thresholds.SeriesIndexMonotonic | public/prelert_swimlane_vis_controller.js:489-510 | with ascending bands a larger value never goes to a lower series |
| Thresholds.DefaultBandsEdges | public/prelert_swimlane_vis.js:49-55 | with the registered bands a value below 0 is unknown (series 0) and values from 75 upward go to the top series 5 |
| Thresholds.DefaultBandsExamples | public/prelert_swimlane_vis.js:49-55 | the registered bands 0, 3, 25, 50, 75 classify sample values to the expected series |
| Render.BuildSeries | public/prelert_swimlane_vis_controller.js:235-263 | a fresh array of `|bands| + 1` empty series: the unknown series first, then band `i`'s colour and threshold at position `i + 1` |
| Render.IndexOf | public/prelert_swimlane_vis_controller.js:287 | `indexOf` is -1 exactly when the lane is absent, otherwise the first position holding it |
| Render.LaneY | public/prelert_swimlane_vis_controller.js:287-294 | a listed lane is plotted strictly inside the y-axis, between 0 and the lane count, and only a listed one; an unlisted lane gets `-1 + 0.5` |
| Render.AssemblePoints | public/prelert_swimlane_vis_controller.js:284-301 | after the nested loops each series `k` holds its old points followed by exactly the points, in enumeration order, whose value classifies to `k`; with no bands (allowed only when there is no entry, since `getSeriesIndex` would throw) the series are unchanged |
| Render.PushLanePoints | public/prelert_swimlane_vis_controller.js:290-300 | the inner loop over one lane's times pushes exactly that lane's points, in time order, each onto the series its value classifies to; a lane without times changes nothing |
| Render.PushPoint | public/prelert_swimlane_vis_controller.js:298-299 | pushing a point onto `allSeries[getSeriesIndex(value)]` extends the distribution by that one point |
| Render.InSeriesMembers | public/prelert_swimlane_vis_controller.js:298-299 | series `k` holds exactly the points whose value's series index is `k` |
| Render.InSeriesAppend | public/prelert_swimlane_vis_controller.js:298-299 | a new point is appended to the series of its index only |
| Render.DistributedAppend | public/prelert_swimlane_vis_controller.js:298-299 | pushing one point changes only the series its value classifies to |
| Render.ChartPointsCount | public/prelert_swimlane_vis_controller.js:286-300 | the lanes processed so far give one point per (lane, time) entry |
| Render.EntryCountMonotone | public/prelert_swimlane_vis_controller.js:286-300 | the entries of the first lanes never exceed those of more lanes |
| Render.LaneEntriesBound | public/prelert_swimlane_vis_controller.js:286-300 | one lane's time entries are among all the entries |
| Render.AllPointsCount | public/prelert_swimlane_vis_controller.js:284-301 | the total number of points equals the total number of time entries |
| Render.EntryHasPoint | public/prelert_swimlane_vis_controller.js:290-297 | every (lane, time) entry has a point with that time, `y = indexOf(lane) + 0.5` and the entry's value as score |
| Render.LanePointsAt | public/prelert_swimlane_vis_controller.js:290-297 | the `b`-th point of a lane is built from its `b`-th time |
| Render.ChartPointsHoldLane | public/prelert_swimlane_vis_controller.js:285-301 | the points of every lane processed are among the chart's points |
| Render.SeriesPartitionPoints | public/prelert_swimlane_vis_controller.js:298-299 | each point lands in exactly one of the `|bands| + 1` series: the series sizes add up to the number of points |
| Render.SeriesSizesAppend | public/prelert_swimlane_vis_controller.js:298-299 | one more point adds one to the size of exactly one series |
| Render.SeriesSizesNone | public/prelert_swimlane_vis_controller.js:235-263 | the series start out empty |
| Render.DistributedNone | public/prelert_swimlane_vis_controller.js:235-263 | before any point is pushed the series are as built |
| Render.HoverRecoversLane | public/prelert_swimlane_vis_controller.js:451-452 | for a lane among the rows, `laneIds[y - 0.5]` gives back the lane; for one that is not, it is `undefined` (the handler computes this label, which the one-parameter `showTooltip` at line 517 then drops) |
| Render.HoverLane | public/prelert_swimlane_vis_controller.js:451-452 | `laneIds[y - 0.5]` is the lane of row `i` exactly when `y` is its row centre `i + 0.5`; any other `y` gives `undefined` |
| Render.ReducedPointsHaveRows | public/prelert_swimlane_vis_controller.js:284-301 | for the reducer's output and any ordering of its lanes, every entry's point has a row strictly inside the y-axis and hovering it gives back its lane |
| Render.HoverTransition | public/prelert_swimlane_vis_controller.js:441-462 | a tooltip is shown, for the hovered item, exactly when a point is hovered whose `dataIndex` differs from the previous one; it is removed and the state cleared exactly when nothing is hovered; while a point is hovered the state is that point's `dataIndex` |
| Render.HoverShowsOnce | public/prelert_swimlane_vis_controller.js:444-445 | a second event for the same point changes neither the state nor the tooltip |
| Render.HoverAfterLeaving | public/prelert_swimlane_vis_controller.js:455-458 | leaving the points clears the state, so the next hovered point always gets a tooltip for that point |
| Render.HoverComparesIndexOnly | public/prelert_swimlane_vis_controller.js:444 | only `dataIndex` is compared, so a point with the same index in another series keeps the earlier tooltip |
| Render.HoverTracker.constructor | public/prelert_swimlane_vis_controller.js:212 | the directive starts with nothing hovered |
| Render.HoverTracker.Reset | public/prelert_swimlane_vis_controller.js:43-45 | a digest without a response clears the hovered point |
| Render.HoverTracker.OnPlotHover | public/prelert_swimlane_vis_controller.js:441-462 | the handler's new state and tooltip effect are exactly `HoverTransition` of the old state |
| Render.RenderNeedsSchemas | public/prelert_swimlane_vis_controller.js:216-218 | a chart is only drawn for data reduced from a response with both the metric and the time split schema |
| Render.ShouldRender | public/prelert_swimlane_vis_controller.js:217-218 | the chart is drawn only with some aggregation and a time split, and, for a well-formed data object, exactly when additionally some lane exists |
| Render.TruncateLabel | public/prelert_swimlane_vis_controller.js:379 | measured in UTF-16 code units: a tick label is at most 28 units, unchanged below 28, else its first 25 units followed by `...` |
| Render.TruncateLabelInBmp | public/prelert_swimlane_vis_controller.js:379 | for a label within the Basic Multilingual Plane the crop is per character: 28 characters or more become the first 25 characters and `...` |
| Render.TruncateLabelSplitsPair | public/prelert_swimlane_vis_controller.js:379 | fourteen U+1F600 characters are 28 units, so the label is cut, leaving a lone high surrogate before `...` |
| Render.Utf16InBmp | public/prelert_swimlane_vis_controller.js:379 | without characters beyond the Basic Multilingual Plane, `length` counts characters |
| Render.Utf16Append | public/prelert_swimlane_vis_controller.js:379 | the UTF-16 form of a concatenation is the concatenation of the forms |
| Render.Utf16Length | public/prelert_swimlane_vis_controller.js:379 | a label's `length` is between its number of characters and twice that |
| Render.MarkingCount | public/prelert_swimlane_vis_controller.js:375-397 | `n` lanes get `(n - 1) + n / 2` markings |
| Render.MarkingsHaveDividers | public/prelert_swimlane_vis_controller.js:383-388 | every row but row 0 gets a divider along its bottom, `[i, i + 0.03]`, in the divider colour |
| Render.MarkingsHaveShades | public/prelert_swimlane_vis_controller.js:390-396 | every odd lane gets a `[i + 0.03, i + 1]` shade in the alternate lane colour |
| Render.MarkingsWithinAxis | public/prelert_swimlane_vis_controller.js:383-396 | every marking lies inside `(0, n]` and is a divider or a shade in one of the two colours |
| Render.LaneMarkings | public/prelert_swimlane_vis_controller.js:383-396 | lane `i` pushes markings inside `[i, i + 1]` only, in the divider or alternate colour: the divider exactly when `i > 0`, the shade exactly when `i` is odd |
| Render.Markings | public/prelert_swimlane_vis_controller.js:383-396 | `n` lanes push at most two markings each, none reaching above `n` |
| Render.AlternateLaneColor | public/prelert_swimlane_vis_controller.js:368 | the alternate lane shade, in either theme, differs from the divider colour |
| Render.LayoutLanes | public/prelert_swimlane_vis_controller.js:368-401 | `yaxis.max` is the lane count, one tick per lane at `i + 0.5` with the truncated label, the markings as above in push order, the height `32 * lanes + 50` |
| Render.RenderSwimlane | public/prelert_swimlane_vis_controller.js:231-401 | the series array has `|bands| + 1` entries (unknown first without a threshold, then each band with its colour and threshold value); the lanes are ordered per `alphabetSortLaneLabels` exactly as `OrderLanes` states; each series holds exactly the points its band classifies (no bands only without entries); `yaxis.max`, one tick per lane at `i + 0.5` with the truncated label, the markings and the height as in `LayoutLanes` |
| Render.ZoomRangeCoversSelection | public/prelert_swimlane_vis_controller.js:477-478 | the padded zoom range contains the selection and is wider by one and a quarter intervals |
| Render.ZoomRangeExample | public/prelert_swimlane_vis_controller.js:477-478 | a ten-minute interval pads `[1000000, 2000000]` to `[850000, 2600000]` |
| Render.ZoomRange | public/prelert_swimlane_vis_controller.js:477-478 | the padding after the selection is four times the padding before it, and with a non-negative interval the range contains the selection |
| ViewControls.Find | public/prelert_swimlane_vis_controller.js:178-181 | `_.find` returns the first option holding the value in the property, or nothing exactly when none does |
| ViewControls.AggInterval | public/prelert_swimlane_vis_controller.js:173-176 | the interval is `params.interval.val`, resolved to `params.customInterval` when it is `'custom'`, so `'custom'` is only reported when the custom interval is itself `'custom'` |
| ViewControls.CustomOption | public/prelert_swimlane_vis_controller.js:182-195 | the added option matches the aggregation's interval by `val` or by `customInterval` |
| ViewControls.ChosenIndex | public/prelert_swimlane_vis_controller.js:178-195 | the chosen option is an existing one or the appended one at the end |
| ViewControls.Reconciled | public/prelert_swimlane_vis_controller.js:178-203 | the option list grows by at most one entry |
| ViewControls.ChosenOptionMatches | public/prelert_swimlane_vis_controller.js:178-205 | the option the control is set to matches the aggregation's interval by `val` or `customInterval` and carries the bucket interval's scaling flags |
| ViewControls.AppendsOnlyWithoutMatch | public/prelert_swimlane_vis_controller.js:182-195 | an option is appended if and only if no existing option matches by either property |
| ViewControls.AppendsWhenNoneMatches | public/prelert_swimlane_vis_controller.js:182-203 | when no option matches by either property, the custom option with the bucket interval's scaling flags is appended and chosen |
| ViewControls.KeepsExistingOptions | public/prelert_swimlane_vis_controller.js:195-203 | no existing option is removed or reordered; only the chosen one gets new scaling flags |
| ViewControls.ChoosesFirstValMatch | public/prelert_swimlane_vis_controller.js:178-181 | a match by `val` wins over one by `customInterval`, and the first such match is chosen |
| ViewControls.ReconcileIdempotentLength | public/prelert_swimlane_vis_controller.js:178-195 | synchronising again with the same aggregation appends nothing more |
| ViewControls.DefaultOptionsHourly | public/prelert_swimlane_vis.js:62-70 | with the registered options an hourly aggregation selects '1 hour' |
| ViewControls.DefaultOptionsFiveMinutes | public/prelert_swimlane_vis.js:62-70 | a custom 5m aggregation is found by `customInterval` as '5 minutes' |
| ViewControls.DefaultOptionsLackSevenMinutes | public/prelert_swimlane_vis.js:62-70 | none of the registered options holds `7m` as `val` or `customInterval` |
| ViewControls.DefaultOptionsSevenMinutes | public/prelert_swimlane_vis.js:62-70 | a custom 7m aggregation gets a new last option 'Custom: 7m' |
| ViewControls.IntervalControl.constructor | public/prelert_swimlane_vis.js:48 | the control starts with the given options and interval |
| ViewControls.IntervalControl.SyncViewControls | public/prelert_swimlane_vis_controller.js:155-205 | nothing changes without aggregations or a time split; otherwise the options become `Reconciled` and `params.interval` is the chosen option in the new list |
| TermKeys.PropertyName | public/prelert_swimlane_vis_controller.js:125 | a string key is its own property name; a number becomes its decimal numeral, with a sign only when negative |
| TermKeys.Decimal | public/prelert_swimlane_vis_controller.js:125 | the numeral of a number is a non-empty string of digits |
| TermKeys.StrictIndexOf | public/prelert_swimlane_vis_controller.js:287 | `indexOf` with `===` against a property name: -1 exactly when no lane id is that very string, otherwise its first position |
| TermKeys.RowAsWritten | public/prelert_swimlane_vis_controller.js:287 | as written, a key's row is -1 exactly when its property name is not itself among the keys pushed to the order, else a position holding that name |
| TermKeys.RowIntended | public/prelert_swimlane_vis_controller.js:123 | with the corrected order, a key's row is -1 exactly when no key has its property name, else a position of a key with that name |
| TermKeys.LabelAsWritten | public/prelert_swimlane_vis_controller.js:376-379 | a string lane id reaches the crop unchanged; a numeric one makes the crop throw |
| TermKeys.OrderIntended | public/prelert_swimlane_vis_controller.js:123-125 | the corrected order holds, for each key, the property name its lane is stored under |
| TermKeys.NumericKeyHasNoRow | public/prelert_swimlane_vis_controller.js:123-125 | as written, a numeric key 404 gets no row (`indexOf` is -1) and its label crop throws; in the corrected order it is row 0 with label "404" |
| TermKeys.NumericKeysHaveNoRow | public/prelert_swimlane_vis_controller.js:287 | as written, when every key is a number no lane is found by `indexOf` |
| TermKeys.IntendedKeysHaveRows | public/prelert_swimlane_vis_controller.js:287 | with the corrected order every key's lane has a row holding its property name, and its label reaches the crop |
| TermKeys.StringKeysAgree | public/prelert_swimlane_vis_controller.js:123-125 | for string keys the corrected order is exactly what the code builds |

## Findings

| source | as written | input that shows it | evidently intended | confidence | as-written member | corrected member |
|---|---|---|---|---|---|---|
| public/prelert_swimlane_vis_controller.js:123 | `aggViewByOrder.push(bucket.key)` pushes the raw key, while line 125 stores the lane under the key's string form and line 287 looks it up with `===`; no lane is found, and the render throws before `$.plot` (line 404): at the `localeCompare` of line 271 when sorting, else at the label crop of line 379 | a `terms` 'view by' split on a numeric field returning bucket key `404` | push the property name `String(bucket.key)`, so every lane is found and labelled | medium, not executed | TermKeys.NumericKeyHasNoRow | TermKeys.IntendedKeysHaveRows |

The rest of the model takes bucket keys as the strings they are stored
under, which is the corrected behaviour (`TermKeys.StringKeysAgree`).

## Left out

- The Angular lifecycle is left out: `$watchMulti`, `$timeout`, `$emit('render')` and the `MutationObserver` on the dashboard grid (lines 41-100, 216-229). It is host event plumbing. The render guard is kept as `ShouldRender`.
- DOM and jQuery work is left out, because it has no data logic: `ng-hide` toggling, the tooltip's HTML and window placement (lines 517-551), the y-axis label titles (lines 433-437), and the CSS class toggled on hover.
- The flot calls (`$.plot`, `resize`, `setupGrid`, `draw`), `ResizeChecker`, the point style fields of each series and the legend options are left out. They are foreign rendering calls and configuration.
- `drawChartSymbol` is left out because it is floating-point canvas geometry.
- `moment` and `numeral` are left out (x-axis bounds and tick formatting, `moment(Number(time))`, the tooltip's date and score text). They are external libraries and calendar arithmetic. A point keeps its time key as the string property name.
- Locale collation is left out. `localeCompare(…, {numeric: true})` is the comparator parameter `leq`.
- The writes to `timefilter` (lines 480-483) are left out as shared host state. Only the padded range is modelled.
- LaneOrder.OrderLanes: the copy, the in-place `sort` and the in-place `reverse` are modelled on sequence values. `Array.prototype.sort` is taken to be stable, as an insertion sort.
- Render.AssemblePoints: a point is the triple (time, y, score); the `Array` holding it and the `{score}` object are not modelled as separate objects.
- ViewControls.IntervalControl.SyncViewControls: the option object the control points to is modelled as a copy, so the model does not say that later changes to one are seen through the other (aliasing).
- Render.ReducedPointsHaveRows: holds for string 'view by' keys only. A `terms` aggregation on a numeric field returns numeric keys. The code pushes the number into `aggViewByOrder` (line 123) but stores the lane under its numeral (line 125). So `indexOf` at line 287 returns -1 for every lane. The render then throws before `$.plot` (line 404), and no chart is drawn. Under 'asc' or 'desc' with two or more such keys, `a.localeCompare` at line 271 throws on a number. Otherwise the label crop at line 379 reads `length` of a number and calls `substring` on it, which throws a TypeError. `TermKeys` models this case; see "## Findings".
- TermKeys: numeric keys are integers; fractional and exponent numerals of `String(number)` are not modelled.
- A 'view by' value named `__proto__` is not modelled. Assigning it at line 125 replaces the object's prototype instead of adding a lane, while the model adds a lane.
- Labels are sequences of Unicode scalar values, so a lane label holding a lone surrogate cannot be written down.
- Property enumeration that differs from insertion order is left out. JavaScript would enumerate 'view by' keys that are canonical array indices (such as `"404"`) before the others. Time keys are epoch milliseconds, above 2^32, which keeps them in insertion order. Bucket keys are modelled as strings.
- Non-string `_.get` results are left out: interval values are strings or `undefined`.
- NaN values are left out: metric values are reals, so comparisons against a NaN threshold or score are not modelled.
- Thresholds.GetSeriesIndex: requires a non-empty band list. With no bands the source throws at line 495 while reading `bands[0].value`.
- `public/prelert_swimlane_vis.js` is registration only. Its default bands and interval options appear as constants.
