/** Per-endpoint request metrics: the accumulator that MetricMiddleware
    updates after each request (internal/middleware/metric_middleware.go, on
    the EndpointMetrics record of internal/metrics/metric.go) and the table
    that MetricsHandler renders from it (internal/handler/metrics_handler.go).
    Durations are int64 nanoseconds given as inputs; the clock is not
    modelled. */
module Metrics {
  import opened Common

  const Int64Min: int := -0x8000_0000_0000_0000
  const Int64Max: int := 0x7FFF_FFFF_FFFF_FFFF

  predicate IsInt64(x: int) {
    Int64Min <= x <= Int64Max
  }

  /** Two's-complement wrap-around of a Go int64 addition. */
  function Wrap64(x: int): (w: int)
    ensures IsInt64(w)
    ensures IsInt64(x) ==> w == x
    ensures (x - w) % 0x1_0000_0000_0000_0000 == 0
  {
    (x - Int64Min) % 0x1_0000_0000_0000_0000 + Int64Min
  }

  /** EndpointMetrics: Count is an int64, the three times are
      time.Duration (int64 nanoseconds). */
  datatype EndpointMetrics = EndpointMetrics(count: int, totalTime: int, minTime: int, maxTime: int)

  predicate WellFormed(m: EndpointMetrics) {
    IsInt64(m.count) && IsInt64(m.totalTime) && IsInt64(m.minTime) && IsInt64(m.maxTime)
  }

  /** The key under which a request is counted. */
  function MetricKey(httpMethod: string, path: string): (k: string)
    ensures |k| == |httpMethod| + 1 + |path|
    ensures k[..|httpMethod|] == httpMethod && k[|httpMethod|] == ' ' && k[|httpMethod| + 1..] == path
  {
    httpMethod + " " + path
  }

  /** One observation of duration `d`: a missing entry starts with Min and
      Max equal to `d` and zero count and total; then Count and Total grow
      (wrapping as int64 does) and Min and Max move to take `d` in. */
  function Observe(prior: Option<EndpointMetrics>, d: int): (m: EndpointMetrics)
    requires IsInt64(d)
    requires prior.Some? ==> WellFormed(prior.value)
    ensures WellFormed(m)
    ensures prior.None? ==> m == EndpointMetrics(1, d, d, d)
    ensures prior.Some? ==>
              && m.count == Wrap64(prior.value.count + 1)
              && m.totalTime == Wrap64(prior.value.totalTime + d)
              && m.minTime == (if d < prior.value.minTime then d else prior.value.minTime)
              && m.maxTime == (if d > prior.value.maxTime then d else prior.value.maxTime)
  {
    var start := if prior.Some? then prior.value else EndpointMetrics(0, 0, d, d);
    EndpointMetrics(
      Wrap64(start.count + 1),
      Wrap64(start.totalTime + d),
      if d < start.minTime then d else start.minTime,
      if d > start.maxTime then d else start.maxTime)
  }

  /** The invariant every stored entry keeps while nothing overflows:
      at least one observation, Min at most Max, and the total between
      Count times Min and Count times Max. */
  predicate Consistent(m: EndpointMetrics) {
    m.count >= 1 && m.minTime <= m.maxTime
    && m.count * m.minTime <= m.totalTime <= m.count * m.maxTime
  }

  /** The requests observed so far fit in int64 after one more. */
  predicate RoomFor(m: EndpointMetrics, d: int) {
    IsInt64(m.count + 1) && IsInt64(m.totalTime + d)
  }

  lemma MulMono(c: int, a: int, b: int)
    requires c >= 0 && a <= b
    ensures c * a <= c * b
  {
  }

  /** A first observation is consistent. */
  lemma ObserveNewConsistent(d: int)
    requires IsInt64(d)
    ensures Consistent(Observe(None, d))
  {
  }

  /** An observation keeps a consistent entry consistent, as long as Count
      and Total do not wrap. */
  lemma ObservePreservesConsistent(m: EndpointMetrics, d: int)
    requires WellFormed(m) && IsInt64(d)
    requires Consistent(m) && RoomFor(m, d)
    ensures Consistent(Observe(Some(m), d))
  {
    var n := Observe(Some(m), d);
    assert n.count == m.count + 1 && n.totalTime == m.totalTime + d;
    MulMono(m.count, n.minTime, m.minTime);
    MulMono(m.count, m.maxTime, n.maxTime);
    assert n.count * n.minTime == m.count * n.minTime + n.minTime;
    assert n.count * n.maxTime == m.count * n.maxTime + n.maxTime;
  }

  /** Go's `/` on integers: the quotient truncated toward zero. */
  function TruncDiv(a: int, b: int): (q: int)
    requires b > 0
    ensures a >= 0 ==> q * b <= a < q * b + b
    ensures a < 0 ==> q * b - b < a <= q * b
  {
    if a >= 0 then a / b else -((-a) / b)
  }

  /** The average shown for an entry: 0 when there is no observation,
      otherwise Total divided by Count, truncated. */
  function Average(m: EndpointMetrics): (avg: int)
    ensures m.count <= 0 ==> avg == 0
    ensures m.count > 0 && m.totalTime >= 0 ==>
              avg * m.count <= m.totalTime < avg * m.count + m.count
    ensures m.count > 0 && m.totalTime < 0 ==>
              avg * m.count - m.count < m.totalTime <= avg * m.count
  {
    if m.count > 0 then TruncDiv(m.totalTime, m.count) else 0
  }

  lemma BelowFromProducts(c: int, x: int, y: int)
    requires c > 0 && c * x < c * y + c
    ensures x <= y
  {
    if x > y {
      MulMono(c, y + 1, x);
    }
  }

  /** On a consistent entry the average lies between Min and Max. */
  lemma AverageWithinBounds(m: EndpointMetrics)
    requires Consistent(m)
    ensures m.minTime <= Average(m) <= m.maxTime
  {
    var c, q := m.count, Average(m);
    if m.totalTime >= 0 {
      assert c * m.minTime < c * q + c;
      BelowFromProducts(c, m.minTime, q);
      assert c * q < c * m.maxTime + c;
      BelowFromProducts(c, q, m.maxTime);
    } else {
      assert c * m.minTime < c * q + c;
      BelowFromProducts(c, m.minTime, q);
      assert c * q < c * m.maxTime + c;
      BelowFromProducts(c, q, m.maxTime);
    }
  }

  /** The global `Metrics` map, keyed by "METHOD path". */
  class Registry {
    var metrics: map<string, EndpointMetrics>

    predicate Valid()
      reads this
    {
      forall k :: k in metrics ==> WellFormed(metrics[k])
    }

    constructor()
      ensures metrics == map[]
      ensures Valid()
    {
      metrics := map[];
    }

    /** MetricMiddleware: the downstream handler has already run and taken
        `duration`, returning `downstream`; the request is counted under its
        key, no other key changes, and the downstream error is passed back
        unchanged. */
    method MetricMiddleware(httpMethod: string, path: string, duration: int, downstream: Option<string>)
      returns (err: Option<string>)
      requires Valid() && IsInt64(duration)
      modifies this
      ensures Valid()
      ensures err == downstream
      ensures var key := MetricKey(httpMethod, path);
              metrics == old(metrics)[key := Observe(if key in old(metrics) then Some(old(metrics)[key]) else None, duration)]
    {
      var key := httpMethod + " " + path;
      var m: EndpointMetrics;
      if key !in metrics {
        m := EndpointMetrics(0, 0, duration, duration);
      } else {
        m := metrics[key];
      }
      m := m.(count := Wrap64(m.count + 1), totalTime := Wrap64(m.totalTime + duration));
      if duration < m.minTime {
        m := m.(minTime := duration);
      }
      if duration > m.maxTime {
        m := m.(maxTime := duration);
      }
      metrics := metrics[key := m];
      err := downstream;
    }
  }

  /** The middleware keeps every entry consistent while nothing overflows. */
  lemma RecordKeepsConsistent(metrics: map<string, EndpointMetrics>, key: string, d: int)
    requires forall k :: k in metrics ==> WellFormed(metrics[k]) && Consistent(metrics[k])
    requires IsInt64(d)
    requires key in metrics ==> RoomFor(metrics[key], d)
    ensures var after := metrics[key := Observe(if key in metrics then Some(metrics[key]) else None, d)];
            forall k :: k in after ==> Consistent(after[k])
  {
    if key in metrics {
      ObservePreservesConsistent(metrics[key], d);
    } else {
      ObserveNewConsistent(d);
    }
  }

  /** The column headings of the metrics table. */
  const Header: seq<string> := ["Endpoint", "Count", "Total", "Min", "Max", "Avg"]

  /** One table row, its cells in the order of Header. The four times are
      nanosecond counts; their decimal formatting is not modelled. */
  datatype Row = Row(endpoint: string, count: int, total: int, min: int, max: int, avg: int)

  function RowOf(key: string, m: EndpointMetrics): (r: Row)
    ensures r.endpoint == key && r.count == m.count && r.total == m.totalTime
    ensures r.min == m.minTime && r.max == m.maxTime && r.avg == Average(m)
  {
    Row(key, m.count, m.totalTime, m.minTime, m.maxTime, Average(m))
  }

  /** The endpoints that have a row. */
  function Endpoints(rows: seq<Row>): set<string> {
    set r | r in rows :: r.endpoint
  }

  /** Each row shows its own entry, and no endpoint has two rows. */
  predicate RowsFor(rows: seq<Row>, metrics: map<string, EndpointMetrics>) {
    && (forall i :: 0 <= i < |rows| ==>
          rows[i].endpoint in metrics && rows[i] == RowOf(rows[i].endpoint, metrics[rows[i].endpoint]))
    && (forall i, j :: 0 <= i < j < |rows| ==> rows[i].endpoint != rows[j].endpoint)
  }

  lemma AppendRow(rows: seq<Row>, metrics: map<string, EndpointMetrics>, key: string)
    requires RowsFor(rows, metrics) && |rows| == |Endpoints(rows)|
    requires key in metrics && key !in Endpoints(rows)
    ensures var more := rows + [RowOf(key, metrics[key])];
            RowsFor(more, metrics) && Endpoints(more) == Endpoints(rows) + {key}
            && |more| == |Endpoints(more)|
  {
    var more := rows + [RowOf(key, metrics[key])];
    assert forall i :: 0 <= i < |rows| ==> more[i] == rows[i];
    assert more[|rows|].endpoint == key;
    forall i | 0 <= i < |rows|
      ensures rows[i].endpoint != key
    {
      assert rows[i] in rows;
    }
    assert Endpoints(more) == Endpoints(rows) + {key};
  }

  /** MetricsHandler's loop: one row per entry of the map, in whatever order
      the map is walked. */
  method RenderRows(metrics: map<string, EndpointMetrics>) returns (rows: seq<Row>)
    ensures |rows| == |metrics|
    ensures RowsFor(rows, metrics)
    ensures Endpoints(rows) == metrics.Keys
  {
    rows := [];
    var remaining := metrics.Keys;
    while remaining != {}
      invariant RowsFor(rows, metrics) && |rows| == |Endpoints(rows)|
      invariant remaining + Endpoints(rows) == metrics.Keys && remaining !! Endpoints(rows)
      decreases |remaining|
    {
      var key :| key in remaining;
      AppendRow(rows, metrics, key);
      rows := rows + [RowOf(key, metrics[key])];
      remaining := remaining - {key};
    }
    assert |metrics| == |metrics.Keys|;
  }

  /** Every row of a table rendered from consistent entries shows an
      average between its Min and Max. */
  lemma RowsAverageWithinBounds(metrics: map<string, EndpointMetrics>, rows: seq<Row>)
    requires forall k :: k in metrics ==> Consistent(metrics[k])
    requires forall i :: 0 <= i < |rows| ==>
               rows[i].endpoint in metrics && rows[i] == RowOf(rows[i].endpoint, metrics[rows[i].endpoint])
    ensures forall i :: 0 <= i < |rows| ==> rows[i].min <= rows[i].avg <= rows[i].max
  {
    forall i | 0 <= i < |rows|
      ensures rows[i].min <= rows[i].avg <= rows[i].max
    {
      AverageWithinBounds(metrics[rows[i].endpoint]);
    }
  }
}
