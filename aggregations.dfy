/** The aggregation reducer of the swimlane controller (`processAggregations`):
    it turns the nested aggregation response into one time series per lane,
    keyed by lane label and then by bucket time, plus the lane labels in the
    order in which the response returned them. */
module Aggregations {
  import opened Wrappers
  import opened JsObject

  /** One bucket of an aggregation response: its `key`, its own data (the
      `doc_count` and the value of each metric sub-aggregation, by
      aggregation id), and the buckets of every bucket sub-aggregation
      nested in it, by aggregation id. Keys are kept as the property names
      they become in the controller's objects. */
  datatype Bucket = Bucket(key: string, docCount: nat, metricValues: map<string, real>,
                           subAggs: map<string, seq<Bucket>>)

  /** The top level of the response: the buckets of each aggregation, by id. */
  type Response = map<string, seq<Bucket>>

  /** The metric aggregation: `getValue` reads the metric value out of a
      bucket's own data and `makeLabel` is what its `makeLabel()` returns.
      Both belong to the host. */
  datatype MetricAgg = MetricAgg(getValue: Bucket -> real, makeLabel: string)

  /** `getValue` of a count metric: the bucket's `doc_count`. */
  function CountValue(b: Bucket): (r: real)
    ensures r >= 0.0
  {
    b.docCount as real
  }

  /** `vis.aggs.bySchemaName`: the metric, the time split and the optional
      'view by' split, each present or absent with its aggregation id. */
  datatype Schemas = Schemas(metric: Option<MetricAgg>, timeSplitId: Option<string>, viewById: Option<string>)

  /** Time key -> metric value, for one lane (`{value: ...}` records). */
  type LaneTimes = Dict<real>

  /** Lane label -> its times (`$scope.metricsData`). */
  type MetricsData = Dict<LaneTimes>

  /** What the reducer leaves in `$scope.metricsData` and `$scope.aggViewByOrder`. */
  datatype Reduced = Reduced(metricsData: MetricsData, aggViewByOrder: seq<string>)

  /** Reading `.buckets` of an aggregation id that the response lacks throws;
      the scope fields are then not assigned. */
  datatype ReduceError = MissingAggregation(id: string)

  ghost predicate WellFormed(md: MetricsData) {
    md.Valid() && forall lane :: lane in md.entries ==> md.entries[lane].Valid()
  }

  /** True when bucket `i` is the last one in `buckets` with its key. */
  ghost predicate LastWithKey(buckets: seq<Bucket>, i: int) {
    0 <= i < |buckets| && forall j :: i < j < |buckets| ==> buckets[j].key != buckets[i].key
  }

  /** The lane object filled from a list of time buckets: one property per
      bucket key holding that bucket's metric value, a later bucket with the
      same key overwriting an earlier one. */
  function TimesFor(buckets: seq<Bucket>, getValue: Bucket -> real): (d: LaneTimes)
    ensures d.Valid()
  {
    if buckets == [] then Empty()
    else
      var last := buckets[|buckets| - 1];
      Put(TimesFor(buckets[..|buckets| - 1], getValue), last.key, getValue(last))
  }

  /** The 'view by' branch over the first buckets of the split: one lane per
      bucket, its label pushed onto the order; a bucket without the time
      split's sub-aggregation throws. */
  function ViewByLanes(buckets: seq<Bucket>, timeAggId: string, getValue: Bucket -> real): (r: Result<Reduced, ReduceError>)
    ensures r.Ok? ==> WellFormed(r.value.metricsData)
    ensures r.Err? ==> r.error == MissingAggregation(timeAggId)
  {
    if buckets == [] then Ok(Reduced(Empty(), []))
    else
      var last := buckets[|buckets| - 1];
      match ViewByLanes(buckets[..|buckets| - 1], timeAggId, getValue)
      case Err(e) => Err(e)
      case Ok(acc) =>
        if timeAggId !in last.subAggs then Err(MissingAggregation(timeAggId))
        else
          var lane := TimesFor(last.subAggs[timeAggId], getValue);
          Ok(Reduced(Put(acc.metricsData, last.key, lane), acc.aggViewByOrder + [last.key]))
  }

  /** What `processAggregations` computes, as a function of the response
      (`None` when it is falsy) and the schemas. */
  function Reduce(aggregations: Option<Response>, schemas: Schemas): (r: Result<Reduced, ReduceError>)
    ensures r.Ok? ==> WellFormed(r.value.metricsData)
  {
    if aggregations.None? || schemas.metric.None? || schemas.timeSplitId.None? then
      Ok(Reduced(Empty(), []))
    else
      var aggs, metric, timeAggId := aggregations.value, schemas.metric.value, schemas.timeSplitId.value;
      match schemas.viewById
      case Some(viewById) =>
        if viewById !in aggs then Err(MissingAggregation(viewById))
        else ViewByLanes(aggs[viewById], timeAggId, metric.getValue)
      case None =>
        if timeAggId !in aggs then Err(MissingAggregation(timeAggId))
        else
          var lane := TimesFor(aggs[timeAggId], metric.getValue);
          Ok(Reduced(Put(Empty(), metric.makeLabel, lane), [metric.makeLabel]))
  }

  /** The inner `_.each` over time buckets, filling one lane object. */
  method CollectTimes(buckets: seq<Bucket>, getValue: Bucket -> real) returns (timesForViewBy: LaneTimes)
    ensures timesForViewBy == TimesFor(buckets, getValue)
  {
    timesForViewBy := Empty();
    var j := 0;
    while j < |buckets|
      invariant 0 <= j <= |buckets|
      invariant timesForViewBy == TimesFor(buckets[..j], getValue)
    {
      var valueBucket := buckets[j];
      assert buckets[..j + 1][..j] == buckets[..j];
      timesForViewBy := Put(timesForViewBy, valueBucket.key, getValue(valueBucket));
      j := j + 1;
    }
    assert buckets[..j] == buckets;
  }

  /** `$scope.processAggregations`. The result stands for the two scope
      fields it assigns at the end; `Err` is the exception that leaves them
      unassigned. */
  method ProcessAggregations(aggregations: Option<Response>, schemas: Schemas) returns (r: Result<Reduced, ReduceError>)
    ensures r == Reduce(aggregations, schemas)
  {
    var dataByViewBy: MetricsData := Empty();
    var aggViewByOrder: seq<string> := [];
    if aggregations.Some? && schemas.metric.Some? && schemas.timeSplitId.Some? {
      var aggs := aggregations.value;
      var metricsAgg := schemas.metric.value;
      var timeAggId := schemas.timeSplitId.value;
      if schemas.viewById.Some? {
        var viewById := schemas.viewById.value;
        if viewById !in aggs {
          return Err(MissingAggregation(viewById));
        }
        var viewByBuckets := aggs[viewById];
        var i := 0;
        while i < |viewByBuckets|
          invariant 0 <= i <= |viewByBuckets|
          invariant ViewByLanes(viewByBuckets[..i], timeAggId, metricsAgg.getValue) == Ok(Reduced(dataByViewBy, aggViewByOrder))
        {
          var bucket := viewByBuckets[i];
          assert viewByBuckets[..i + 1][..i] == viewByBuckets[..i];
          // The lane object is assigned before it is filled; it is the same
          // object, so the lane ends up holding the filled times.
          var viewByValue := bucket.key;
          aggViewByOrder := aggViewByOrder + [viewByValue];
          if timeAggId !in bucket.subAggs {
            ViewByLanesFails(viewByBuckets, timeAggId, metricsAgg.getValue);
            return Err(MissingAggregation(timeAggId));
          }
          var timesForViewBy := CollectTimes(bucket.subAggs[timeAggId], metricsAgg.getValue);
          dataByViewBy := Put(dataByViewBy, viewByValue, timesForViewBy);
          i := i + 1;
        }
        assert viewByBuckets[..i] == viewByBuckets;
      } else {
        if timeAggId !in aggs {
          return Err(MissingAggregation(timeAggId));
        }
        var timesForViewBy := CollectTimes(aggs[timeAggId], metricsAgg.getValue);
        dataByViewBy := Put(dataByViewBy, metricsAgg.makeLabel, timesForViewBy);
        aggViewByOrder := aggViewByOrder + [metricsAgg.makeLabel];
        assert aggViewByOrder == [metricsAgg.makeLabel];
      }
    }
    r := Ok(Reduced(dataByViewBy, aggViewByOrder));
  }

  /** Some bucket in `buckets` has key `t`. */
  ghost predicate HasKey(buckets: seq<Bucket>, t: string) {
    exists i :: 0 <= i < |buckets| && buckets[i].key == t
  }

  lemma HasKeyLast(buckets: seq<Bucket>, t: string)
    requires buckets != []
    ensures HasKey(buckets, t) <==> HasKey(buckets[..|buckets| - 1], t) || buckets[|buckets| - 1].key == t
  {
    var init := buckets[..|buckets| - 1];
    if HasKey(init, t) {
      var i :| 0 <= i < |init| && init[i].key == t;
      assert buckets[i].key == t;
    }
    if HasKey(buckets, t) && t != buckets[|buckets| - 1].key {
      var i :| 0 <= i < |buckets| && buckets[i].key == t;
      assert init[i].key == t;
    }
  }

  /** A lane object has a property for exactly the keys of its buckets. */
  lemma {:induction false} TimesForKeys(buckets: seq<Bucket>, getValue: Bucket -> real, t: string)
    ensures t in TimesFor(buckets, getValue).entries <==> HasKey(buckets, t)
  {
    if buckets != [] {
      var n := |buckets| - 1;
      var init, last := buckets[..n], buckets[n];
      TimesForKeys(init, getValue, t);
      assert TimesFor(buckets, getValue).entries == TimesFor(init, getValue).entries[last.key := getValue(last)];
      HasKeyLast(buckets, t);
    }
  }

  /** Each property of a lane object holds the value of the last bucket with
      that key. */
  lemma {:induction false} TimesForLastValue(buckets: seq<Bucket>, getValue: Bucket -> real, i: int)
    requires LastWithKey(buckets, i)
    ensures buckets[i].key in TimesFor(buckets, getValue).entries
    ensures TimesFor(buckets, getValue).entries[buckets[i].key] == getValue(buckets[i])
  {
    var n := |buckets| - 1;
    if i < n {
      var init := buckets[..n];
      assert LastWithKey(init, i);
      TimesForLastValue(init, getValue, i);
    }
  }

  /** A lane object has a property for exactly the keys of its buckets, and
      each holds the value of the last bucket with that key. */
  lemma TimesForHoldsLastBucket(buckets: seq<Bucket>, getValue: Bucket -> real)
    ensures forall t :: t in TimesFor(buckets, getValue).entries <==> HasKey(buckets, t)
    ensures forall i :: LastWithKey(buckets, i) ==>
      buckets[i].key in TimesFor(buckets, getValue).entries && TimesFor(buckets, getValue).entries[buckets[i].key] == getValue(buckets[i])
  {
    forall t ensures t in TimesFor(buckets, getValue).entries <==> HasKey(buckets, t) {
      TimesForKeys(buckets, getValue, t);
    }
    forall i | LastWithKey(buckets, i)
      ensures buckets[i].key in TimesFor(buckets, getValue).entries && TimesFor(buckets, getValue).entries[buckets[i].key] == getValue(buckets[i])
    {
      TimesForLastValue(buckets, getValue, i);
    }
  }

  /** With distinct bucket keys the lane has one time key per bucket, in
      bucket order. */
  lemma {:induction false} TimesForDistinctKeys(buckets: seq<Bucket>, getValue: Bucket -> real)
    requires forall i, j :: 0 <= i < j < |buckets| ==> buckets[i].key != buckets[j].key
    ensures |TimesFor(buckets, getValue).keys| == |buckets|
    ensures forall i :: 0 <= i < |buckets| ==> TimesFor(buckets, getValue).keys[i] == buckets[i].key
  {
    if buckets != [] {
      var n := |buckets| - 1;
      var init, last := buckets[..n], buckets[n];
      TimesForDistinctKeys(init, getValue);
      var prev := TimesFor(init, getValue);
      forall i | 0 <= i < |prev.keys|
        ensures prev.keys[i] != last.key
      {
        assert prev.keys[i] == init[i].key == buckets[i].key;
      }
      assert last.key !in prev.entries;
      assert TimesFor(buckets, getValue).keys == prev.keys + [last.key];
      forall i | 0 <= i < |buckets|
        ensures TimesFor(buckets, getValue).keys[i] == buckets[i].key
      {
        if i < n {
          assert buckets[i] == init[i];
        }
      }
    }
  }

  /** One step of the 'view by' branch that does not throw: the prefix did
      not throw, and the last bucket adds its lane and its label. */
  lemma ViewByLanesStep(buckets: seq<Bucket>, timeAggId: string, getValue: Bucket -> real)
    requires buckets != [] && ViewByLanes(buckets, timeAggId, getValue).Ok?
    ensures ViewByLanes(buckets[..|buckets| - 1], timeAggId, getValue).Ok?
    ensures timeAggId in buckets[|buckets| - 1].subAggs
    ensures var acc := ViewByLanes(buckets[..|buckets| - 1], timeAggId, getValue).value;
      var last := buckets[|buckets| - 1];
      var r := ViewByLanes(buckets, timeAggId, getValue).value;
      && r.aggViewByOrder == acc.aggViewByOrder + [last.key]
      && r.metricsData.entries == acc.metricsData.entries[last.key := TimesFor(last.subAggs[timeAggId], getValue)]
  {
  }

  /** `order` lists the keys of `buckets` in order, and every bucket holds
      the time split. */
  ghost predicate OrderOfKeys(order: seq<string>, buckets: seq<Bucket>, timeAggId: string) {
    |order| == |buckets| &&
    forall i :: 0 <= i < |buckets| ==> order[i] == buckets[i].key && timeAggId in buckets[i].subAggs
  }

  lemma OrderOfKeysAppend(order: seq<string>, buckets: seq<Bucket>, last: Bucket, timeAggId: string)
    requires OrderOfKeys(order, buckets, timeAggId) && timeAggId in last.subAggs
    ensures OrderOfKeys(order + [last.key], buckets + [last], timeAggId)
  {
    var o, b := order + [last.key], buckets + [last];
    forall i | 0 <= i < |b|
      ensures o[i] == b[i].key && timeAggId in b[i].subAggs
    {
      if i < |buckets| {
        assert o[i] == order[i] && b[i] == buckets[i];
      }
    }
  }

  /** The 'view by' branch, when it does not throw: the order lists every
      bucket key in response order and every bucket has the time split. */
  lemma {:induction false} ViewByLanesOrder(buckets: seq<Bucket>, timeAggId: string, getValue: Bucket -> real)
    requires ViewByLanes(buckets, timeAggId, getValue).Ok?
    ensures OrderOfKeys(ViewByLanes(buckets, timeAggId, getValue).value.aggViewByOrder, buckets, timeAggId)
  {
    if buckets != [] {
      var n := |buckets| - 1;
      var init, last := buckets[..n], buckets[n];
      ViewByLanesStep(buckets, timeAggId, getValue);
      ViewByLanesOrder(init, timeAggId, getValue);
      OrderOfKeysAppend(ViewByLanes(init, timeAggId, getValue).value.aggViewByOrder, init, last, timeAggId);
      assert buckets == init + [last];
    }
  }

  /** The 'view by' branch, when it does not throw: the lanes are exactly
      the labels in the order. */
  lemma {:induction false} ViewByLanesListed(buckets: seq<Bucket>, timeAggId: string, getValue: Bucket -> real)
    requires ViewByLanes(buckets, timeAggId, getValue).Ok?
    ensures var r := ViewByLanes(buckets, timeAggId, getValue).value;
      forall lane :: lane in r.metricsData.entries <==> lane in r.aggViewByOrder
  {
    if buckets != [] {
      var n := |buckets| - 1;
      ViewByLanesStep(buckets, timeAggId, getValue);
      ViewByLanesListed(buckets[..n], timeAggId, getValue);
    }
  }

  /** The 'view by' branch, when it does not throw: each lane is the one
      built from the last bucket with its label. */
  lemma {:induction false} ViewByLanesLastBucket(buckets: seq<Bucket>, timeAggId: string, getValue: Bucket -> real, i: int)
    requires ViewByLanes(buckets, timeAggId, getValue).Ok? && LastWithKey(buckets, i)
    ensures timeAggId in buckets[i].subAggs
    ensures buckets[i].key in ViewByLanes(buckets, timeAggId, getValue).value.metricsData.entries
    ensures ViewByLanes(buckets, timeAggId, getValue).value.metricsData.entries[buckets[i].key]
         == TimesFor(buckets[i].subAggs[timeAggId], getValue)
  {
    var n := |buckets| - 1;
    var init, last := buckets[..n], buckets[n];
    ViewByLanesStep(buckets, timeAggId, getValue);
    if i < n {
      assert init[i] == buckets[i];
      assert last.key != buckets[i].key;
      assert LastWithKey(init, i) by {
        forall j | i < j < n
          ensures init[j].key != init[i].key
        {
          assert init[j] == buckets[j];
        }
      }
      ViewByLanesLastBucket(init, timeAggId, getValue, i);
    }
  }

  lemma ViewByLanesErrStep(buckets: seq<Bucket>, timeAggId: string, getValue: Bucket -> real)
    requires buckets != []
    ensures ViewByLanes(buckets, timeAggId, getValue).Err? <==>
      ViewByLanes(buckets[..|buckets| - 1], timeAggId, getValue).Err? || timeAggId !in buckets[|buckets| - 1].subAggs
  {
  }

  /** Some bucket lacks the time split's sub-aggregation. */
  ghost predicate LacksTimeSplit(buckets: seq<Bucket>, timeAggId: string) {
    exists i :: 0 <= i < |buckets| && timeAggId !in buckets[i].subAggs
  }

  lemma LacksTimeSplitLast(buckets: seq<Bucket>, timeAggId: string)
    requires buckets != []
    ensures LacksTimeSplit(buckets, timeAggId) <==>
      LacksTimeSplit(buckets[..|buckets| - 1], timeAggId) || timeAggId !in buckets[|buckets| - 1].subAggs
  {
    var n := |buckets| - 1;
    var init := buckets[..n];
    if LacksTimeSplit(buckets, timeAggId) {
      var i :| 0 <= i < |buckets| && timeAggId !in buckets[i].subAggs;
      if i < n {
        assert init[i] == buckets[i];
      }
    }
    if LacksTimeSplit(init, timeAggId) {
      var i :| 0 <= i < n && timeAggId !in init[i].subAggs;
      assert init[i] == buckets[i];
    }
  }

  /** The 'view by' branch throws exactly when some bucket lacks the time
      split's sub-aggregation. */
  lemma {:induction false} ViewByLanesFails(buckets: seq<Bucket>, timeAggId: string, getValue: Bucket -> real)
    ensures ViewByLanes(buckets, timeAggId, getValue).Err? <==>
      exists i :: 0 <= i < |buckets| && timeAggId !in buckets[i].subAggs
  {
    if buckets != [] {
      var n := |buckets| - 1;
      ViewByLanesFails(buckets[..n], timeAggId, getValue);
      ViewByLanesErrStep(buckets, timeAggId, getValue);
      LacksTimeSplitLast(buckets, timeAggId);
    }
  }


  /** Without a response, a metric or a time split, both outputs are empty. */
  lemma ReduceWithoutSchemasIsEmpty(aggregations: Option<Response>, schemas: Schemas)
    requires aggregations.None? || schemas.metric.None? || schemas.timeSplitId.None?
    ensures Reduce(aggregations, schemas).Ok?
    ensures Reduce(aggregations, schemas).value.metricsData.entries == map[]
    ensures Reduce(aggregations, schemas).value.aggViewByOrder == []
  {
  }

  /** With a 'view by' split: one lane per top-level bucket, labels in
      response order, each lane holding every nested time bucket's value,
      a later duplicate label replacing the earlier lane; it throws exactly
      when the split or some bucket's time split is missing. */
  lemma ReduceViewBy(aggs: Response, metric: MetricAgg, timeAggId: string, viewById: string)
    ensures var r := Reduce(Some(aggs), Schemas(Some(metric), Some(timeAggId), Some(viewById)));
      && (r.Err? <==> viewById !in aggs || exists i :: 0 <= i < |aggs[viewById]| && timeAggId !in aggs[viewById][i].subAggs)
      && (r.Ok? ==>
            var buckets := aggs[viewById];
            && |r.value.aggViewByOrder| == |buckets|
            && (forall i :: 0 <= i < |buckets| ==> r.value.aggViewByOrder[i] == buckets[i].key)
            && (forall i :: 0 <= i < |buckets| ==> timeAggId in buckets[i].subAggs)
            && (forall lane :: lane in r.value.metricsData.entries <==> lane in r.value.aggViewByOrder)
            && (forall i :: LastWithKey(buckets, i) ==>
                  var lane := r.value.metricsData.entries[buckets[i].key];
                  var times := buckets[i].subAggs[timeAggId];
                  && (forall t :: t in lane.entries <==> HasKey(times, t))
                  && (forall j :: LastWithKey(times, j) ==> lane.entries[times[j].key] == metric.getValue(times[j]))))
  {
    if viewById in aggs {
      var buckets := aggs[viewById];
      ViewByLanesFails(buckets, timeAggId, metric.getValue);
      if ViewByLanes(buckets, timeAggId, metric.getValue).Ok? {
        ViewByLanesOrder(buckets, timeAggId, metric.getValue);
        ViewByLanesListed(buckets, timeAggId, metric.getValue);
        var r := ViewByLanes(buckets, timeAggId, metric.getValue).value;
        forall i | LastWithKey(buckets, i)
          ensures var lane := r.metricsData.entries[buckets[i].key];
                  var times := buckets[i].subAggs[timeAggId];
                  && (forall t :: t in lane.entries <==> HasKey(times, t))
                  && (forall j :: LastWithKey(times, j) ==> lane.entries[times[j].key] == metric.getValue(times[j]))
        {
          ViewByLanesLastBucket(buckets, timeAggId, metric.getValue, i);
          TimesForHoldsLastBucket(buckets[i].subAggs[timeAggId], metric.getValue);
        }
      }
    }
  }

  /** Without a 'view by' split: exactly one lane, labelled by the metric,
      covering every top-level time bucket. */
  lemma ReduceSingleLane(aggs: Response, metric: MetricAgg, timeAggId: string)
    ensures var r := Reduce(Some(aggs), Schemas(Some(metric), Some(timeAggId), None));
      && (r.Err? <==> timeAggId !in aggs)
      && (r.Ok? ==>
            var lane := r.value.metricsData.entries[metric.makeLabel];
            && r.value.aggViewByOrder == [metric.makeLabel]
            && r.value.metricsData.keys == [metric.makeLabel]
            && r.value.metricsData.entries.Keys == {metric.makeLabel}
            && (forall t :: t in lane.entries <==> HasKey(aggs[timeAggId], t))
            && (forall j :: LastWithKey(aggs[timeAggId], j) ==>
                  lane.entries[aggs[timeAggId][j].key] == metric.getValue(aggs[timeAggId][j])))
  {
    if timeAggId in aggs {
      TimesForHoldsLastBucket(aggs[timeAggId], metric.getValue);
    }
  }

  /** Every lane in the data is listed in the order, and every listed label
      has a lane: the renderer always finds a row for a lane. */
  lemma ReducedLanesAreListed(aggregations: Option<Response>, schemas: Schemas)
    requires Reduce(aggregations, schemas).Ok?
    ensures var r := Reduce(aggregations, schemas).value;
      forall lane :: lane in r.metricsData.entries <==> lane in r.aggViewByOrder
  {
    if aggregations.Some? && schemas.metric.Some? && schemas.timeSplitId.Some? && schemas.viewById.Some? {
      ViewByLanesListed(aggregations.value[schemas.viewById.value], schemas.timeSplitId.value, schemas.metric.value.getValue);
    }
  }

  /** Two lanes with a time bucket at the same time keep the values of their
      own buckets: with a count metric, doc counts 5 and 7 stay 5 and 7. */
  lemma LanesKeepOwnValues()
    ensures var a := Bucket("a", 5, map[], map["t" := [Bucket("T", 5, map[], map[])]]);
      var b := Bucket("b", 7, map[], map["t" := [Bucket("T", 7, map[], map[])]]);
      var r := Reduce(Some(map["v" := [a, b]]), Schemas(Some(MetricAgg(CountValue, "Count")), Some("t"), Some("v")));
      && r.Ok?
      && r.value.metricsData.entries["a"].entries["T"] == 5.0
      && r.value.metricsData.entries["b"].entries["T"] == 7.0
  {
    var ta, tb := [Bucket("T", 5, map[], map[])], [Bucket("T", 7, map[], map[])];
    var a := Bucket("a", 5, map[], map["t" := ta]);
    var b := Bucket("b", 7, map[], map["t" := tb]);
    var aggs := map["v" := [a, b]];
    var metric := MetricAgg(CountValue, "Count");
    ReduceViewBy(aggs, metric, "t", "v");
    assert LastWithKey([a, b], 0) && LastWithKey([a, b], 1);
    assert LastWithKey(ta, 0) && LastWithKey(tb, 0);
  }
}
