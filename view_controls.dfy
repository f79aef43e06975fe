/** `syncViewControls`: after each response the Interval control is made to
    show the interval the time split aggregation ran with, adding a
    'Custom: …' option when none of the configured ones matches. */
module ViewControls {
  import opened Wrappers

  /** A value read with `_.get`: a string, or `undefined` when the path is
      absent. */
  datatype JsValue = Undefined | Str(s: string)

  /** A property of an option object: absent, or present with a value. */
  datatype Field = Missing | Present(value: JsValue)

  /** What `timeAgg.buckets.getInterval()` reports about scaling. */
  datatype ScaledInterval = ScaledInterval(scaled: bool, scale: real, description: string)

  /** An entry of `intervalOptions`; `scaling` is absent until the options
      object has been synchronised once. */
  datatype IntervalOption = IntervalOption(display: string, val: Field, customInterval: Field, scaling: Option<ScaledInterval>)

  /** The parts of `timeSplit[0]` read here: `params.interval.val`,
      `params.customInterval` and the bucket interval. */
  datatype TimeAgg = TimeAgg(intervalVal: JsValue, customInterval: JsValue, bucketsInterval: ScaledInterval)

  /** The two properties an option is looked up by. */
  datatype OptionKey = ValKey | CustomIntervalKey

  function FieldOf(o: IntervalOption, key: OptionKey): Field {
    match key
    case ValKey => o.val
    case CustomIntervalKey => o.customInterval
  }

  /** `_.find(options, {key: v})` matches an option that has the property and
      holds a strictly equal value; `undefined` matches only a property
      present with value `undefined`. */
  predicate Matches(o: IntervalOption, key: OptionKey, v: JsValue) {
    FieldOf(o, key) == Present(v)
  }

  predicate MatchesEither(o: IntervalOption, v: JsValue) {
    Matches(o, ValKey, v) || Matches(o, CustomIntervalKey, v)
  }

  /** `_.find`: the first matching option. */
  function Find(options: seq<IntervalOption>, key: OptionKey, v: JsValue): (r: Option<nat>)
    ensures r.None? <==> forall i :: 0 <= i < |options| ==> !Matches(options[i], key, v)
    ensures r.Some? ==>
      && r.value < |options|
      && Matches(options[r.value], key, v)
      && forall i :: 0 <= i < r.value ==> !Matches(options[i], key, v)
  {
    if options == [] then None
    else if Matches(options[0], key, v) then Some(0)
    else
      match Find(options[1..], key, v)
      case None => None
      case Some(i) => Some(i + 1)
  }

  /** Lines 173-176: the interval the aggregation ran with, its custom
      interval when the interval is `'custom'`. */
  function AggInterval(t: TimeAgg): (r: JsValue)
    ensures r == t.intervalVal || r == t.customInterval
    ensures t.intervalVal != Str("custom") ==> r == t.intervalVal
    ensures r == Str("custom") ==> t.customInterval == Str("custom")
  {
    if t.intervalVal == Str("custom") then t.customInterval else t.intervalVal
  }

  /** String concatenation of a value read with `_.get`. */
  function DisplayText(v: JsValue): string {
    match v
    case Undefined => "undefined"
    case Str(s) => s
  }

  /** Lines 182-195: the option added when none matches. */
  function CustomOption(t: TimeAgg): (o: IntervalOption)
    ensures MatchesEither(o, AggInterval(t))
  {
    if t.intervalVal != Str("custom") then
      IntervalOption("Custom: " + DisplayText(t.intervalVal), Present(t.intervalVal), Missing, None)
    else
      IntervalOption("Custom: " + DisplayText(t.customInterval), Present(Str("custom")), Present(t.customInterval), None)
  }

  /** The position of the option the control is set to: the first one
      matching by `val`, else the first matching by `customInterval`, else
      the appended custom option at the end. */
  function ChosenIndex(options: seq<IntervalOption>, t: TimeAgg): (k: nat)
    ensures k <= |options|
  {
    match Find(options, ValKey, AggInterval(t))
    case Some(i) => i
    case None =>
      match Find(options, CustomIntervalKey, AggInterval(t))
      case Some(i) => i
      case None => |options|
  }

  /** The options after synchronising: the custom option appended when
      needed, and the chosen option given the scaling flags. */
  function Reconciled(options: seq<IntervalOption>, t: TimeAgg): (r: seq<IntervalOption>)
    ensures |r| == |options| || |r| == |options| + 1
  {
    var k := ChosenIndex(options, t);
    var extended := if k == |options| then options + [CustomOption(t)] else options;
    extended[k := extended[k].(scaling := Some(t.bucketsInterval))]
  }

  /** The chosen option matches the aggregation's interval by `val` or by
      `customInterval`, and carries the bucket interval's scaling. */
  lemma ChosenOptionMatches(options: seq<IntervalOption>, t: TimeAgg)
    ensures var k := ChosenIndex(options, t);
      var r := Reconciled(options, t);
      k < |r| && MatchesEither(r[k], AggInterval(t)) && r[k].scaling == Some(t.bucketsInterval)
  {
  }

  /** An option is appended exactly when none matches the interval by either
      property. */
  lemma AppendsOnlyWithoutMatch(options: seq<IntervalOption>, t: TimeAgg)
    ensures |Reconciled(options, t)| == |options| + 1 <==>
      forall i :: 0 <= i < |options| ==> !MatchesEither(options[i], AggInterval(t))
  {
    var v := AggInterval(t);
    if forall i :: 0 <= i < |options| ==> !MatchesEither(options[i], v) {
      assert Find(options, ValKey, v).None?;
    } else {
      var i :| 0 <= i < |options| && MatchesEither(options[i], v);
      assert Matches(options[i], ValKey, v) || Matches(options[i], CustomIntervalKey, v);
    }
  }

  /** Without a match the custom option, with the scaling flags, is
      appended and chosen. */
  lemma AppendsWhenNoneMatches(options: seq<IntervalOption>, t: TimeAgg)
    requires forall i :: 0 <= i < |options| ==> !MatchesEither(options[i], AggInterval(t))
    ensures ChosenIndex(options, t) == |options|
    ensures Reconciled(options, t) == options + [CustomOption(t).(scaling := Some(t.bucketsInterval))]
  {
    assert Find(options, ValKey, AggInterval(t)).None?;
    assert Find(options, CustomIntervalKey, AggInterval(t)).None?;
  }

  /** Existing options keep their position and their display, `val` and
      `customInterval`; only the chosen one gets new scaling flags. */
  lemma KeepsExistingOptions(options: seq<IntervalOption>, t: TimeAgg)
    ensures var k := ChosenIndex(options, t);
      var r := Reconciled(options, t);
      forall i :: 0 <= i < |options| ==>
        r[i] == (if i == k then options[i].(scaling := Some(t.bucketsInterval)) else options[i])
  {
  }

  /** A value matched by `val` is preferred to one matched by
      `customInterval`, and among those the first wins. */
  lemma ChoosesFirstValMatch(options: seq<IntervalOption>, t: TimeAgg, i: nat)
    requires i < |options| && Matches(options[i], ValKey, AggInterval(t))
    ensures ChosenIndex(options, t) <= i && Matches(options[ChosenIndex(options, t)], ValKey, AggInterval(t))
  {
  }

  /** Synchronising twice appends at most once: after the first pass the
      chosen option is found again. */
  lemma ReconcileIdempotentLength(options: seq<IntervalOption>, t: TimeAgg)
    ensures |Reconciled(Reconciled(options, t), t)| == |Reconciled(options, t)|
  {
    ChosenOptionMatches(options, t);
    var r := Reconciled(options, t);
    var k := ChosenIndex(options, t);
    AppendsOnlyWithoutMatch(r, t);
    assert MatchesEither(r[k], AggInterval(t));
  }

  function Preset(display: string, val: string, customInterval: Option<string>): IntervalOption {
    IntervalOption(display, Present(Str(val)),
                   if customInterval.Some? then Present(Str(customInterval.value)) else Missing, None)
  }

  /** The interval options the visualization is registered with. */
  const DefaultIntervalOptions: seq<IntervalOption> := [
    Preset("Auto", "auto", None),
    Preset("5 minutes", "custom", Some("5m")),
    Preset("10 minutes", "custom", Some("10m")),
    Preset("30 minutes", "custom", Some("30m")),
    Preset("1 hour", "h", None),
    Preset("3 hours", "custom", Some("3h")),
    Preset("12 hours", "custom", Some("12h")),
    Preset("1 day", "d", None)
  ]

  /** With the registered options an hourly aggregation selects '1 hour'. */
  lemma DefaultOptionsHourly(s: ScaledInterval)
    ensures ChosenIndex(DefaultIntervalOptions, TimeAgg(Str("h"), Undefined, s)) == 4
  {
    var d := DefaultIntervalOptions;
    assert forall i :: 0 <= i < 4 ==> !Matches(d[i], ValKey, Str("h"));
    assert Matches(d[4], ValKey, Str("h"));
  }

  /** A custom 5m aggregation is found by `customInterval`: '5 minutes'. */
  lemma DefaultOptionsFiveMinutes(s: ScaledInterval)
    ensures ChosenIndex(DefaultIntervalOptions, TimeAgg(Str("custom"), Str("5m"), s)) == 1
  {
    var d := DefaultIntervalOptions;
    assert forall i :: 0 <= i < |d| ==> !Matches(d[i], ValKey, Str("5m"));
    assert !Matches(d[0], CustomIntervalKey, Str("5m"));
    assert Matches(d[1], CustomIntervalKey, Str("5m"));
  }

  /** No registered option holds `7m` in either property. */
  lemma DefaultOptionsLackSevenMinutes()
    ensures forall i :: 0 <= i < |DefaultIntervalOptions| ==> !MatchesEither(DefaultIntervalOptions[i], Str("7m"))
  {
    var d, v := DefaultIntervalOptions, Str("7m");
    assert !MatchesEither(d[0], v) && !MatchesEither(d[1], v) && !MatchesEither(d[2], v) && !MatchesEither(d[3], v);
    assert !MatchesEither(d[4], v) && !MatchesEither(d[5], v) && !MatchesEither(d[6], v) && !MatchesEither(d[7], v);
  }

  /** A custom 7m aggregation matches nothing and gets a new last option. */
  lemma DefaultOptionsSevenMinutes(s: ScaledInterval)
    ensures var r := Reconciled(DefaultIntervalOptions, TimeAgg(Str("custom"), Str("7m"), s));
      |r| == 9 && r[8] == IntervalOption("Custom: 7m", Present(Str("custom")), Present(Str("7m")), Some(s))
  {
    var t := TimeAgg(Str("custom"), Str("7m"), s);
    DefaultOptionsLackSevenMinutes();
    AppendsWhenNoneMatches(DefaultIntervalOptions, t);
    assert "Custom: " + DisplayText(Str("7m")) == "Custom: 7m";
  }

  /** The interval options of the visualization type and `vis.params.interval`. */
  class IntervalControl {
    var intervalOptions: seq<IntervalOption>
    var interval: IntervalOption

    constructor (intervalOptions: seq<IntervalOption>, interval: IntervalOption)
      ensures this.intervalOptions == intervalOptions && this.interval == interval
    {
      this.intervalOptions := intervalOptions;
      this.interval := interval;
    }

    /** Lines 155-205. `aggCount` is `vis.aggs.length`; `timeSplit` is the
        first time split aggregation, `None` when that schema is absent. */
    method SyncViewControls(aggCount: nat, timeSplit: Option<TimeAgg>)
      modifies this
      ensures aggCount == 0 || timeSplit.None? ==>
        intervalOptions == old(intervalOptions) && interval == old(interval)
      ensures aggCount != 0 && timeSplit.Some? ==>
        && intervalOptions == Reconciled(old(intervalOptions), timeSplit.value)
        && ChosenIndex(old(intervalOptions), timeSplit.value) < |intervalOptions|
        && interval == intervalOptions[ChosenIndex(old(intervalOptions), timeSplit.value)]
    {
      if aggCount == 0 || timeSplit.None? {
        return;
      }
      var timeAgg := timeSplit.value;
      var aggInterval := timeAgg.intervalVal;
      if aggInterval == Str("custom") {
        aggInterval := timeAgg.customInterval;
      }
      var setToInterval := Find(intervalOptions, ValKey, aggInterval);
      if setToInterval.None? {
        setToInterval := Find(intervalOptions, CustomIntervalKey, aggInterval);
      }
      if setToInterval.None? {
        intervalOptions := intervalOptions + [CustomOption(timeAgg)];
        setToInterval := Some(|intervalOptions| - 1);
      }
      var k := setToInterval.value;
      intervalOptions := intervalOptions[k := intervalOptions[k].(scaling := Some(timeAgg.bucketsInterval))];
      interval := intervalOptions[k];
    }
  }
}
