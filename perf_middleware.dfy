/**
 * The request-performance monitor: every finished request becomes a metric
 * kept in a bounded in-memory buffer; the recent-metrics view returns the
 * buffer's tail; the dashboard aggregates the last hundred metrics per
 * endpoint and raises latency and success-rate alerts. Clock readings and
 * request/response details are parameters; durations are exact reals.
 */
module PerfMiddleware {
  import opened Results
  import opened PyText

  /** The buffer keeps this many metrics. */
  const Capacity: nat := 1000

  /** The dashboard looks at this many of the latest metrics. */
  const DashboardWindow: nat := 100

  /** Recent errors are taken from this many of the latest metrics in the window. */
  const ErrorWindow: nat := 20

  /** One request's metric (the logged query parameters and JSON body are not modelled). */
  datatype Metric = Metric(
    requestId: string,
    timestamp: string,
    endpoint: string,
    httpMethod: string,
    path: string,
    statusCode: int,
    duration: real,
    requestSize: nat,
    responseSize: nat,
    success: bool)

  /** A request or response size: its non-zero content length, otherwise the length of its body. */
  function BodySize(contentLength: Option<nat>, body: string): (r: nat)
    ensures contentLength.Some? && contentLength.value > 0 ==> r == contentLength.value
    ensures contentLength.None? || contentLength.value == 0 ==> r == |body|
  {
    match contentLength
    case Some(n) => if n > 0 then n else |body|
    case None => |body|
  }

  /**
   * The metric `log_request_performance` builds: the endpoint name falls back
   * to "unknown", the duration is the time since the request started, and the
   * request succeeded exactly when its status is in 200..399.
   */
  function NewMetric(
    requestId: string, timestamp: string, endpoint: Option<string>, httpMethod: string, path: string,
    statusCode: int, start: real, end: real, requestSize: nat, responseSize: nat): (m: Metric)
    ensures m.success <==> 200 <= statusCode < 400
    ensures m.duration == end - start
    ensures endpoint.Some? && endpoint.value != "" ==> m.endpoint == endpoint.value
    ensures endpoint.None? || endpoint.value == "" ==> m.endpoint == "unknown"
  {
    var name := if endpoint.Some? && endpoint.value != "" then endpoint.value else "unknown";
    Metric(requestId, timestamp, name, httpMethod, path, statusCode, end - start, requestSize, responseSize,
      200 <= statusCode < 400)
  }

  /** The buffer after one more metric: appended, and the oldest dropped when over capacity. */
  function Logged(buffer: seq<Metric>, m: Metric): (r: seq<Metric>)
    ensures |buffer| <= Capacity ==> |r| <= Capacity
    ensures r != [] && r[|r| - 1] == m
    ensures |buffer| < Capacity ==> r == buffer + [m]
    ensures |buffer| == Capacity ==> r == buffer[1..] + [m]
  {
    var appended := buffer + [m];
    if |appended| > Capacity then appended[1..] else appended
  }

  /** The buffer after a run of metrics, one at a time. */
  function LoggedAll(buffer: seq<Metric>, ms: seq<Metric>): seq<Metric>
    decreases |ms|
  {
    if ms == [] then buffer
    else Logged(LoggedAll(buffer, ms[..|ms| - 1]), ms[|ms| - 1])
  }

  /** The last `n` elements of `s`, or all of it when it is shorter. */
  function Latest<T>(s: seq<T>, n: nat): (r: seq<T>)
    ensures |r| == if |s| < n then |s| else n
    ensures r == s[|s| - |r|..]
  {
    s[if |s| < n then 0 else |s| - n..]
  }

  lemma LoggedLatest(s: seq<Metric>, m: Metric)
    ensures Logged(Latest(s, Capacity), m) == Latest(s + [m], Capacity)
  {
    if |s| >= Capacity {
      assert Latest(s, Capacity)[1..] + [m] == (s + [m])[|s| + 1 - Capacity..];
    }
  }

  /** One more metric keeps the buffer equal to the latest metrics. */
  lemma LoggedAllStep(buffer: seq<Metric>, ms: seq<Metric>)
    requires ms != []
    requires LoggedAll(buffer, ms[..|ms| - 1]) == Latest(buffer + ms[..|ms| - 1], Capacity)
    ensures LoggedAll(buffer, ms) == Latest(buffer + ms, Capacity)
  {
    var k := |ms| - 1;
    LoggedLatest(buffer + ms[..k], ms[k]);
    SplitLast(buffer, ms);
  }

  lemma SplitLast<T>(a: seq<T>, b: seq<T>)
    requires b != []
    ensures a + b[..|b| - 1] + [b[|b| - 1]] == a + b
  {
    assert b[..|b| - 1] + [b[|b| - 1]] == b;
  }

  /**
   * Whatever was logged, a buffer that started within capacity holds exactly
   * the latest 1000 metrics, oldest first.
   */
  lemma {:induction false} LoggedAllKeepsLatest(buffer: seq<Metric>, ms: seq<Metric>)
    requires |buffer| <= Capacity
    ensures LoggedAll(buffer, ms) == Latest(buffer + ms, Capacity)
    decreases |ms|
  {
    if ms == [] {
      assert buffer + ms == buffer;
    } else {
      LoggedAllKeepsLatest(buffer, ms[..|ms| - 1]);
      LoggedAllStep(buffer, ms);
    }
  }

  /** The per-endpoint counters of the dashboard. */
  datatype Stats = Stats(count: nat, totalDuration: real, successCount: nat, errorCount: nat)

  /** `avg_duration`, or 0 where it was never set. */
  function AvgDuration(s: Stats): real
  {
    if s.count > 0 then s.totalDuration / (s.count as real) else 0.0
  }

  /** `success_rate`, or 1 where it was never set. */
  function SuccessRate(s: Stats): real
  {
    if s.count > 0 then (s.successCount as real) / (s.count as real) else 1.0
  }

  /** The endpoint statistics: a dictionary, with its insertion order. */
  datatype Table = Table(order: seq<string>, stats: map<string, Stats>)

  /** One metric counted into the table. */
  function Tally(t: Table, m: Metric): Table
  {
    var e := m.endpoint;
    var s := if e in t.stats then t.stats[e] else Stats(0, 0.0, 0, 0);
    var s' := Stats(
      s.count + 1, s.totalDuration + m.duration,
      s.successCount + (if m.success then 1 else 0), s.errorCount + (if m.success then 0 else 1));
    Table(if e in t.stats then t.order else t.order + [e], t.stats[e := s'])
  }

  /** The table after counting a window of metrics in order. */
  function Aggregate(window: seq<Metric>): Table
    decreases |window|
  {
    if window == [] then Table([], map[])
    else Tally(Aggregate(window[..|window| - 1]), window[|window| - 1])
  }

  /** How many metrics of the window are about endpoint `e`. */
  function CountAt(window: seq<Metric>, e: string): nat
    decreases |window|
  {
    if window == [] then 0
    else CountAt(window[..|window| - 1], e) + (if window[|window| - 1].endpoint == e then 1 else 0)
  }

  /** How many of them succeeded. */
  function SuccessesAt(window: seq<Metric>, e: string): nat
    decreases |window|
  {
    if window == [] then 0
    else
      var m := window[|window| - 1];
      SuccessesAt(window[..|window| - 1], e) + (if m.endpoint == e && m.success then 1 else 0)
  }

  lemma {:induction false} SuccessesWithin(window: seq<Metric>, e: string)
    ensures SuccessesAt(window, e) <= CountAt(window, e)
    decreases |window|
  {
    if window != [] {
      SuccessesWithin(window[..|window| - 1], e);
    }
  }

  /** The sum of the counts, over the endpoints in order. */
  function SumCounts(order: seq<string>, stats: map<string, Stats>): nat
    decreases |order|
  {
    if order == [] then 0
    else
      var e := order[|order| - 1];
      SumCounts(order[..|order| - 1], stats) + (if e in stats then stats[e].count else 0)
  }

  /** The insertion order lists every endpoint of the table once. */
  ghost predicate Ordered(t: Table)
  {
    NoDup(t.order) && forall e :: e in t.order <==> e in t.stats
  }

  /** Each table entry counts its endpoint's requests, successes and errors in the window. */
  ghost predicate Counts(t: Table, window: seq<Metric>)
  {
    (forall e :: e in t.stats <==> CountAt(window, e) > 0)
    && forall e :: e in t.stats ==>
         t.stats[e].count == CountAt(window, e)
         && t.stats[e].successCount == SuccessesAt(window, e)
         && t.stats[e].count == t.stats[e].successCount + t.stats[e].errorCount
  }

  /** A table describes a window: one entry per endpoint seen, with its counts adding up to the window size. */
  ghost predicate Describes(t: Table, window: seq<Metric>)
  {
    Ordered(t) && Counts(t, window) && SumCounts(t.order, t.stats) == |window|
  }

  /** Changing the stats of an endpoint that is not listed leaves the sum alone. */
  lemma {:induction false} SumCountsOther(order: seq<string>, stats: map<string, Stats>, e: string, s: Stats)
    requires e !in order
    ensures SumCounts(order, stats[e := s]) == SumCounts(order, stats)
    decreases |order|
  {
    if order != [] {
      SumCountsOther(order[..|order| - 1], stats, e, s);
    }
  }

  /** Adding one to the count of an endpoint listed once adds one to the sum. */
  lemma {:induction false} SumCountsBump(order: seq<string>, stats: map<string, Stats>, e: string, s: Stats)
    requires NoDup(order) && e in order && e in stats && s.count == stats[e].count + 1
    ensures SumCounts(order, stats[e := s]) == SumCounts(order, stats) + 1
    decreases |order|
  {
    var k := |order| - 1;
    var init := order[..k];
    assert NoDup(init);
    if order[k] == e {
      assert e !in init;
      SumCountsOther(init, stats, e, s);
    } else {
      assert e in init;
      SumCountsBump(init, stats, e, s);
    }
  }

  lemma TallyOrdered(t: Table, m: Metric)
    requires Ordered(t)
    ensures Ordered(Tally(t, m))
  {
    if m.endpoint !in t.stats {
      assert NoDup(Tally(t, m).order);
    }
  }

  lemma TallyCounts(t: Table, window: seq<Metric>, m: Metric)
    requires Counts(t, window)
    ensures Counts(Tally(t, m), window + [m])
  {
    var w := window + [m];
    assert w[..|w| - 1] == window;
    var t' := Tally(t, m);
    forall e
      ensures e in t'.stats <==> CountAt(w, e) > 0
      ensures e in t'.stats ==>
        t'.stats[e].count == CountAt(w, e)
        && t'.stats[e].successCount == SuccessesAt(w, e)
        && t'.stats[e].count == t'.stats[e].successCount + t'.stats[e].errorCount
    {
      assert CountAt(w, e) == CountAt(window, e) + (if m.endpoint == e then 1 else 0);
      assert SuccessesAt(w, e) == SuccessesAt(window, e) + (if m.endpoint == e && m.success then 1 else 0);
      SuccessesWithin(window, e);
      if e in t'.stats && e != m.endpoint {
        assert t'.stats[e] == t.stats[e];
      }
    }
  }

  lemma TallySum(t: Table, window: seq<Metric>, m: Metric)
    requires Ordered(t) && SumCounts(t.order, t.stats) == |window|
    ensures SumCounts(Tally(t, m).order, Tally(t, m).stats) == |window + [m]|
  {
    var e := m.endpoint;
    var t' := Tally(t, m);
    if e in t.stats {
      SumCountsBump(t.order, t.stats, e, t'.stats[e]);
    } else {
      SumCountsOther(t.order, t.stats, e, t'.stats[e]);
      assert t'.order[..|t'.order| - 1] == t.order;
    }
  }

  lemma TallyDescribes(t: Table, window: seq<Metric>, m: Metric)
    requires Describes(t, window)
    ensures Describes(Tally(t, m), window + [m])
  {
    TallyOrdered(t, m);
    TallyCounts(t, window, m);
    TallySum(t, window, m);
  }

  /**
   * The dashboard's endpoint statistics: one entry per endpoint that occurs,
   * each counting that endpoint's requests, successes and errors; the counts
   * add up to the window size.
   */
  lemma {:induction false} AggregateDescribes(window: seq<Metric>)
    ensures Describes(Aggregate(window), window)
    decreases |window|
  {
    if window != [] {
      var k := |window| - 1;
      var init := window[..k];
      assert init + [window[k]] == window;
      assert Aggregate(window) == Tally(Aggregate(init), window[k]);
      AggregateDescribes(init);
      TallyDescribes(Aggregate(init), init, window[k]);
    }
  }

  /** The endpoint loop of the dashboard. */
  method AggregateEndpoints(window: seq<Metric>) returns (t: Table)
    ensures t == Aggregate(window)
  {
    t := Table([], map[]);
    for i := 0 to |window|
      invariant t == Aggregate(window[..i])
    {
      assert window[..i + 1][..i] == window[..i];
      t := Tally(t, window[i]);
    }
    assert window[..|window|] == window;
  }

  datatype AlertKind = HighLatency | ModerateLatency | LowSuccessRate | ModerateSuccessRate
  datatype Severity = Critical | Warning

  /** An alert: its kind, severity, endpoint, and the average or rate that raised it. */
  datatype Alert = Alert(kind: AlertKind, severity: Severity, endpoint: string, value: real)

  /** The alerts for one endpoint: at most one about latency, then at most one about success rate. */
  function AlertsFor(e: string, s: Stats): (r: seq<Alert>)
    ensures |r| <= 2
    ensures forall a :: a in r ==> a.endpoint == e
  {
    var avg := AvgDuration(s);
    var rate := SuccessRate(s);
    (if avg > 10.0 then [Alert(HighLatency, Critical, e, avg)]
     else if avg > 5.0 then [Alert(ModerateLatency, Warning, e, avg)]
     else [])
    + (if rate < 0.8 && s.count >= 5 then [Alert(LowSuccessRate, Critical, e, rate)]
       else if rate < 0.95 && s.count >= 5 then [Alert(ModerateSuccessRate, Warning, e, rate)]
       else [])
  }

  /** The conditions under which each kind of alert is raised. */
  predicate Justified(a: Alert, s: Stats)
  {
    match a.kind
    case HighLatency => a.severity == Critical && AvgDuration(s) > 10.0
    case ModerateLatency => a.severity == Warning && 5.0 < AvgDuration(s) <= 10.0
    case LowSuccessRate => a.severity == Critical && s.count >= 5 && SuccessRate(s) < 0.8
    case ModerateSuccessRate => a.severity == Warning && s.count >= 5 && 0.8 <= SuccessRate(s) < 0.95
  }

  predicate IsLatency(k: AlertKind)
  {
    k == HighLatency || k == ModerateLatency
  }

  /**
   * Every alert for an endpoint is justified by its statistics, there is a
   * latency alert exactly when the average exceeds 5 seconds and a success-rate
   * alert exactly when five or more requests succeeded less than 95 percent of
   * the time, and never two of the same sort.
   */
  lemma AlertsForJustified(e: string, s: Stats)
    ensures forall a :: a in AlertsFor(e, s) ==> Justified(a, s)
    ensures (exists a :: a in AlertsFor(e, s) && IsLatency(a.kind)) <==> AvgDuration(s) > 5.0
    ensures (exists a :: a in AlertsFor(e, s) && !IsLatency(a.kind)) <==> s.count >= 5 && SuccessRate(s) < 0.95
    ensures forall i, j :: 0 <= i < j < |AlertsFor(e, s)| ==>
      IsLatency(AlertsFor(e, s)[i].kind) != IsLatency(AlertsFor(e, s)[j].kind)
  {
  }

  /** `generate_performance_alerts`: the endpoints' alerts, in the table's order. */
  function Alerts(order: seq<string>, stats: map<string, Stats>): seq<Alert>
    decreases |order|
  {
    if order == [] then []
    else
      var e := order[|order| - 1];
      Alerts(order[..|order| - 1], stats) + (if e in stats then AlertsFor(e, stats[e]) else [])
  }

  /** The alerts about one endpoint, in order. */
  function About(alerts: seq<Alert>, e: string): (r: seq<Alert>)
    ensures |r| <= |alerts|
    decreases |alerts|
  {
    if alerts == [] then []
    else
      var a := alerts[|alerts| - 1];
      About(alerts[..|alerts| - 1], e) + (if a.endpoint == e then [a] else [])
  }

  lemma {:induction false} AboutConcat(x: seq<Alert>, y: seq<Alert>, e: string)
    ensures About(x + y, e) == About(x, e) + About(y, e)
    decreases |y|
  {
    if y == [] {
      assert x + y == x;
    } else {
      var k := |y| - 1;
      assert (x + y)[..|x + y| - 1] == x + y[..k];
      AboutConcat(x, y[..k], e);
    }
  }

  lemma {:induction false} AboutUniform(alerts: seq<Alert>, x: string, e: string)
    requires forall a :: a in alerts ==> a.endpoint == x
    ensures About(alerts, e) == if x == e then alerts else []
    decreases |alerts|
  {
    if alerts != [] {
      var k := |alerts| - 1;
      assert alerts[k] in alerts;
      AboutUniform(alerts[..k], x, e);
      assert alerts[..k] + [alerts[k]] == alerts;
    }
  }

  /**
   * The alerts about endpoint `e` are exactly those its own statistics raise,
   * when it is listed once; none when it is not listed.
   */
  lemma {:induction false} AlertsAbout(order: seq<string>, stats: map<string, Stats>, e: string)
    requires NoDup(order)
    ensures e in order && e in stats ==> About(Alerts(order, stats), e) == AlertsFor(e, stats[e])
    ensures e !in order ==> About(Alerts(order, stats), e) == []
    decreases |order|
  {
    if order != [] {
      var k := |order| - 1;
      var x := order[k];
      var init := order[..k];
      assert NoDup(init);
      AlertsAbout(init, stats, e);
      var own := if x in stats then AlertsFor(x, stats[x]) else [];
      AboutConcat(Alerts(init, stats), own, e);
      AboutUniform(own, x, e);
      if x == e {
        assert e !in init;
      } else if e in order {
        assert e in init;
      }
    }
  }

  /** The alert loop. */
  method GenerateAlerts(t: Table) returns (alerts: seq<Alert>)
    ensures alerts == Alerts(t.order, t.stats)
  {
    alerts := [];
    for i := 0 to |t.order|
      invariant alerts == Alerts(t.order[..i], t.stats)
    {
      assert t.order[..i + 1][..i] == t.order[..i];
      var e := t.order[i];
      if e in t.stats {
        alerts := alerts + AlertsFor(e, t.stats[e]);
      }
    }
    assert t.order[..|t.order|] == t.order;
  }

  /** How many metrics succeeded. */
  function Successes(window: seq<Metric>): (r: nat)
    ensures r <= |window|
    decreases |window|
  {
    if window == [] then 0
    else Successes(window[..|window| - 1]) + (if window[|window| - 1].success then 1 else 0)
  }

  function SumDurations(window: seq<Metric>): real
    decreases |window|
  {
    if window == [] then 0.0 else SumDurations(window[..|window| - 1]) + window[|window| - 1].duration
  }

  /** The largest duration: at least every duration, and one of them. */
  function MaxDuration(window: seq<Metric>): (r: real)
    requires window != []
    ensures forall i :: 0 <= i < |window| ==> window[i].duration <= r
    ensures exists i :: 0 <= i < |window| && window[i].duration == r
    decreases |window|
  {
    if |window| == 1 then window[0].duration
    else
      var rest := MaxDuration(window[..|window| - 1]);
      var last := window[|window| - 1].duration;
      if last > rest then last else rest
  }

  /** The smallest duration: at most every duration, and one of them. */
  function MinDuration(window: seq<Metric>): (r: real)
    requires window != []
    ensures forall i :: 0 <= i < |window| ==> r <= window[i].duration
    ensures exists i :: 0 <= i < |window| && window[i].duration == r
    decreases |window|
  {
    if |window| == 1 then window[0].duration
    else
      var rest := MinDuration(window[..|window| - 1]);
      var last := window[|window| - 1].duration;
      if last < rest then last else rest
  }

  /** An entry of `recent_errors`. */
  datatype ErrorEntry = ErrorEntry(endpoint: string, statusCode: int, duration: real, timestamp: string)

  function EntryOf(m: Metric): ErrorEntry
  {
    ErrorEntry(m.endpoint, m.statusCode, m.duration, m.timestamp)
  }

  /** The failed metrics of a run, as error entries, in order. */
  function Failures(ms: seq<Metric>): (r: seq<ErrorEntry>)
    ensures |r| <= |ms|
    decreases |ms|
  {
    if ms == [] then []
    else Failures(ms[..|ms| - 1]) + (if ms[|ms| - 1].success then [] else [EntryOf(ms[|ms| - 1])])
  }

  /** Every error entry comes from a failed metric of the run. */
  lemma {:induction false} FailuresFailed(ms: seq<Metric>)
    ensures forall x :: x in Failures(ms) ==> exists i :: 0 <= i < |ms| && !ms[i].success && x == EntryOf(ms[i])
    decreases |ms|
  {
    if ms != [] {
      var k := |ms| - 1;
      FailuresFailed(ms[..k]);
      forall x | x in Failures(ms)
        ensures exists i :: 0 <= i < |ms| && !ms[i].success && x == EntryOf(ms[i])
      {
        if x in Failures(ms[..k]) {
          var i :| 0 <= i < k && !ms[..k][i].success && x == EntryOf(ms[..k][i]);
          assert ms[i] == ms[..k][i];
        } else {
          assert !ms[k].success && x == EntryOf(ms[k]);
        }
      }
    }
  }

  datatype Summary = Summary(
    totalRequests: nat,
    successfulRequests: nat,
    successRate: real,
    avgResponseTime: real,
    maxResponseTime: real,
    minResponseTime: real)

  datatype Dashboard =
    | NoData(message: string, timestamp: string)
    | Data(
        summary: Summary,
        endpoints: Table,
        slowEndpoints: map<string, Stats>,
        recentErrors: seq<ErrorEntry>,
        alerts: seq<Alert>,
        timestamp: string)

  /** The window the dashboard looks at. */
  function Window(metrics: seq<Metric>): seq<Metric>
  {
    Latest(metrics, DashboardWindow)
  }

  function SummaryOf(window: seq<Metric>): Summary
    requires window != []
  {
    var total := |window|;
    var successful := Successes(window);
    Summary(total, successful, (successful as real) / (total as real),
      SumDurations(window) / (total as real), MaxDuration(window), MinDuration(window))
  }

  /** The endpoints whose average response time exceeds three seconds. */
  function SlowEndpoints(stats: map<string, Stats>): map<string, Stats>
  {
    map e | e in stats && AvgDuration(stats[e]) > 3.0 :: stats[e]
  }

  /** `get_performance_dashboard()` over the buffer, at clock reading `now`. */
  function DashboardOf(metrics: seq<Metric>, now: string): Dashboard
  {
    if metrics == [] then NoData("No performance data available", now)
    else
      var window := Window(metrics);
      var t := Aggregate(window);
      Data(SummaryOf(window), t, SlowEndpoints(t.stats), Failures(Latest(window, ErrorWindow)),
        Alerts(t.order, t.stats), now)
  }

  /**
   * The dashboard has data exactly when the buffer is not empty; then it counts
   * at most the latest hundred requests, its endpoint counts add up to that
   * number, and its successful requests never exceed it.
   */
  lemma DashboardWindowCounts(metrics: seq<Metric>, now: string)
    ensures DashboardOf(metrics, now).Data? <==> metrics != []
    ensures DashboardOf(metrics, now).Data? ==>
      DashboardOf(metrics, now).summary.totalRequests == |Window(metrics)|
      && |Window(metrics)| <= DashboardWindow
      && Window(metrics) == metrics[|metrics| - |Window(metrics)|..]
      && SumCounts(DashboardOf(metrics, now).endpoints.order, DashboardOf(metrics, now).endpoints.stats) == |Window(metrics)|
  {
    AggregateDescribes(Window(metrics));
  }

  /** The recent errors are failed requests among the latest twenty of the window, at most twenty of them. */
  lemma DashboardRecentErrors(metrics: seq<Metric>, now: string)
    requires metrics != []
    ensures |DashboardOf(metrics, now).recentErrors| <= ErrorWindow
    ensures forall x :: x in DashboardOf(metrics, now).recentErrors ==>
      exists i :: 0 <= i < |Latest(Window(metrics), ErrorWindow)|
        && !Latest(Window(metrics), ErrorWindow)[i].success && x == EntryOf(Latest(Window(metrics), ErrorWindow)[i])
  {
    FailuresFailed(Latest(Window(metrics), ErrorWindow));
  }

  /** The monitor's in-memory buffer. */
  class Monitor {
    var metrics: seq<Metric>

    ghost predicate Valid()
      reads this
    {
      |metrics| <= Capacity
    }

    constructor ()
      ensures metrics == [] && Valid()
    {
      metrics := [];
    }

    /**
     * `log_request_performance`: nothing when the request has no recorded start
     * time; otherwise the metric is appended and the oldest dropped when the
     * buffer is over capacity.
     */
    method LogRequestPerformance(started: bool, m: Metric)
      requires Valid()
      modifies this
      ensures Valid()
      ensures metrics == if started then Logged(old(metrics), m) else old(metrics)
    {
      if started {
        metrics := metrics + [m];
        if |metrics| > Capacity {
          metrics := metrics[1..];
        }
      }
    }

    /**
     * `get_recent_metrics(limit)`: the tail `metrics[-limit:]`. A positive limit
     * gives the latest `limit` metrics, zero gives the whole buffer, and a
     * negative limit drops that many from the front.
     */
    function RecentMetrics(limit: int): (r: seq<Metric>)
      reads this
      ensures |r| <= |metrics| && r == metrics[|metrics| - |r|..]
      ensures limit > 0 ==> |r| == if |metrics| < limit then |metrics| else limit
      ensures limit == 0 ==> r == metrics
      ensures limit < 0 ==> |r| == if |metrics| < -limit then 0 else |metrics| + limit
    {
      if metrics == [] then [] else PyDrop(metrics, -limit)
    }

    /** The dashboard, computed with the endpoint and alert loops. */
    method GetPerformanceDashboard(now: string) returns (d: Dashboard)
      ensures d == DashboardOf(metrics, now)
    {
      if metrics == [] {
        d := NoData("No performance data available", now);
      } else {
        var window := Latest(metrics, DashboardWindow);
        var t := AggregateEndpoints(window);
        var alerts := GenerateAlerts(t);
        d := Data(SummaryOf(window), t, SlowEndpoints(t.stats), Failures(Latest(window, ErrorWindow)), alerts, now);
      }
    }
  }
}
