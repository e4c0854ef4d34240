/** The health-metrics grid (`HealthMetricsGrid`): the user's latest metric
    sample, seeded with fixed values when there is none, and nudged every
    three seconds by a random walk. */
module HealthMetrics {
  import opened Common
  import opened Query
  import opened Store

  /** The values shown, and stored, when the user has no sample yet. */
  const Mock: HealthMetric := HealthMetric(72.0, 16.0, 35, 85, 78, "good", 36.8, 4523)

  /** The three `Math.random()` values one update draws, in the order the
      heart rate, the breathing rate and the step count consume them. */
  datatype Draw = Draw(heart: real, breath: real, step: real)

  /** Each draw lies in [0, 1), as `Math.random()` promises. */
  predicate UnitDraw(d: Draw) {
    0.0 <= d.heart < 1.0 && 0.0 <= d.breath < 1.0 && 0.0 <= d.step < 1.0
  }

  function Max(a: real, b: real): real { if a >= b then a else b }
  function Min(a: real, b: real): real { if a <= b then a else b }

  /** One `simulateMetricUpdate` step on the previous metrics. */
  function Jitter(prev: Option<HealthMetric>, d: Draw): (r: Option<HealthMetric>)
    requires UnitDraw(d)
    ensures r.None? <==> prev.None?
    ensures r.Some? ==>
      var p := prev.value;
      var m := r.value;
      -1.5 <= m.heartRate - p.heartRate < 1.5 &&
      12.0 <= m.breathingRate <= 20.0 &&
      (12.0 <= p.breathingRate <= 20.0 ==> -1.0 <= m.breathingRate - p.breathingRate <= 1.0) &&
      p.steps <= m.steps <= p.steps + 9 &&
      m.stressLevel == p.stressLevel && m.sleepQuality == p.sleepQuality &&
      m.recoveryScore == p.recoveryScore && m.postureStatus == p.postureStatus &&
      m.bodyTemperature == p.bodyTemperature
  {
    match prev
    case None => None
    case Some(p) =>
      Some(p.(
        heartRate := p.heartRate + (d.heart - 0.5) * 3.0,
        breathingRate := Max(12.0, Min(20.0, p.breathingRate + (d.breath - 0.5) * 2.0)),
        steps := p.steps + (d.step * 10.0).Floor))
  }

  /** Updates applied in order, first draw first. */
  function JitterAll(prev: Option<HealthMetric>, ds: seq<Draw>): Option<HealthMetric>
    requires forall i :: 0 <= i < |ds| ==> UnitDraw(ds[i])
    decreases |ds|
  {
    if ds == [] then prev else JitterAll(Jitter(prev, ds[0]), ds[1..])
  }

  /** Over any number of ticks the fixed fields never change, the step count
      grows by at most nine per tick and never shrinks, and after the first
      tick the breathing rate stays within [12, 20]. */
  lemma {:induction false} JitterAllSpec(prev: Option<HealthMetric>, ds: seq<Draw>)
    requires forall i :: 0 <= i < |ds| ==> UnitDraw(ds[i])
    ensures JitterAll(prev, ds).None? <==> prev.None?
    ensures prev.Some? ==>
      var p := prev.value;
      var m := JitterAll(prev, ds).value;
      p.steps <= m.steps <= p.steps + 9 * |ds| &&
      (ds != [] ==> 12.0 <= m.breathingRate <= 20.0) &&
      m.stressLevel == p.stressLevel && m.sleepQuality == p.sleepQuality &&
      m.recoveryScore == p.recoveryScore && m.postureStatus == p.postureStatus &&
      m.bodyTemperature == p.bodyTemperature
    decreases |ds|
  {
    if ds != [] {
      var next := Jitter(prev, ds[0]);
      JitterAllSpec(next, ds[1..]);
      if prev.Some? && ds[1..] != [] {
        assert 12.0 <= JitterAll(next, ds[1..]).value.breathingRate <= 20.0;
      }
    }
  }

  class MetricsGrid {
    /** The `userId` prop. */
    const userId: string
    var metrics: Option<HealthMetric>
    /** Whether the three-second interval is still installed. */
    var ticking: bool

    constructor (uid: string)
      ensures userId == uid && metrics == None && ticking
    {
      userId := uid;
      metrics, ticking := None, true;
    }

    /** One interval callback; none runs once the interval is cleared. */
    method Tick(d: Draw)
      requires UnitDraw(d)
      modifies this
      ensures metrics == if old(ticking) then Jitter(old(metrics), d) else old(metrics)
      ensures ticking == old(ticking)
    {
      if ticking {
        metrics := Jitter(metrics, d);
      }
    }

    /** The effect's cleanup clears the interval. */
    method Unmount()
      modifies this
      ensures !ticking && metrics == old(metrics)
    {
      ticking := false;
    }

    /** `fetchLatestMetrics`, with the query's and the insert's outcomes as
        `queryOk` and `insertOk`; a failed query reads as no data. The mock
        values are shown before the insert is sent, whatever its outcome. */
    method FetchLatestMetrics(db: Backend, queryOk: bool, insertOk: bool)
      requires db.Valid()
      modifies this, db
      ensures db.Valid()
      ensures var found := if queryOk then LatestMetric(old(db.metrics), userId) else None;
        (found.Some? ==> metrics == Some(found.value.metric) && db.metrics == old(db.metrics) && db.nextId == old(db.nextId)) &&
        (found.None? ==>
          metrics == Some(Mock) &&
          db.metrics == (if insertOk then old(db.metrics) + [MetricRow(old(db.nextId), old(db.nextId), userId, Mock)]
                         else old(db.metrics)) &&
          db.nextId == old(db.nextId) + (if insertOk then 1 else 0))
      ensures ticking == old(ticking)
      ensures db.garments == old(db.garments) && db.goals == old(db.goals) && db.eco == old(db.eco)
    {
      var data := if queryOk then LatestMetric(db.metrics, userId) else None;
      if data.Some? {
        metrics := Some(data.value.metric);
      } else {
        metrics := Some(Mock);
        var _ := db.InsertMetric(userId, Mock, insertOk);
      }
    }
  }

  /** After a fetch that found no sample and stored the mock one, the next
      fetch finds exactly that sample for the user. */
  lemma SeedThenFind(rows: seq<MetricRow>, uid: string, id: nat)
    requires forall i :: 0 <= i < |rows| ==> rows[i].userId != uid
    ensures LatestMetric(rows + [MetricRow(id, id, uid, Mock)], uid) == Some(MetricRow(id, id, uid, Mock))
  {
    var p := (m: MetricRow) => m.userId == uid;
    FilterAppend(rows, [MetricRow(id, id, uid, Mock)], p);
    assert Filter([MetricRow(id, id, uid, Mock)], p) == [MetricRow(id, id, uid, Mock)] + Filter([MetricRow(id, id, uid, Mock)][1..], p);
    NoneMatch(rows, p);
  }

  lemma {:induction false} NoneMatch(rows: seq<MetricRow>, p: MetricRow -> bool)
    requires forall i :: 0 <= i < |rows| ==> !p(rows[i])
    ensures Filter(rows, p) == []
  {
    if rows != [] {
      NoneMatch(rows[1..], p);
    }
  }
}
