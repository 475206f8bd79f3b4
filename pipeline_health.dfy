/**
 * The pipeline health monitor: per-component health records, a bounded
 * history of errors, bounded per-key response-time histories, operation
 * counters, and the roll-ups computed from them (overall status,
 * percentiles, recommendations).
 *
 * Timestamps are integer seconds and the clock is a `now` parameter. A
 * bounded `deque` is a sequence kept to its newest `maxlen` entries.
 */
module PipelineHealth {
  import opened Wrappers
  import Text
  import Ordering
  import opened History
  import Locks

  datatype ComponentStatus = Healthy | Degraded | Error | Unavailable | Unknown

  /** A component's health record; its name is its key. */
  datatype ComponentHealth = ComponentHealth(
    status: ComponentStatus,
    lastCheck: int,
    lastError: Option<string>,
    errorCount: nat,
    successCount: nat,
    avgResponseTime: Option<real>,
    metadata: map<string, string>)

  /** A record with no checks yet. */
  function Fresh(status: ComponentStatus, now: int): ComponentHealth
  {
    ComponentHealth(status, now, None, 0, 0, None, map[])
  }

  /** The components tracked from the start, in registration order. */
  const KnownComponents: seq<string> :=
    ["database", "tts_service", "avatar_service", "background_tasks", "cache_manager", "rate_limiter", "cleanup_scheduler"]

  datatype PipelineError = PipelineError(timestamp: int, component: string, errorType: string, message: string)

  /**
   * A health check's effect on its component: the new status and check
   * time; a non-empty error is recorded and counted as an error, anything
   * else as a success; the mean of the (bounded) response times when a time
   * was given and any remain; the metadata merged in.
   */
  function Checked(c: ComponentHealth, status: ComponentStatus, times: Option<seq<real>>,
                   error: Option<string>, metadata: map<string, string>, now: int): (r: ComponentHealth)
    ensures r.status == status && r.lastCheck == now
    ensures r.errorCount + r.successCount == c.errorCount + c.successCount + 1
    ensures r.errorCount == c.errorCount + (if error.Some? && error.value != [] then 1 else 0)
    ensures r.lastError == (if error.Some? && error.value != [] then error else c.lastError)
  {
    var failed := error.Some? && error.value != [];
    c.(status := status, lastCheck := now,
       lastError := if failed then error else c.lastError,
       errorCount := if failed then c.errorCount + 1 else c.errorCount,
       successCount := if failed then c.successCount else c.successCount + 1,
       avgResponseTime := if times.Some? && times.value != [] then Some(Sum(times.value) / |times.value| as real) else c.avgResponseTime,
       metadata := if metadata != map[] then c.metadata + metadata else c.metadata)
  }

  /**
   * A check merges its metadata into the component's, the new entries
   * winning, and sets the average response time to the mean of the times
   * given, leaving it alone when there are none.
   */
  lemma CheckedMetadataAndAverage(c: ComponentHealth, status: ComponentStatus, times: Option<seq<real>>,
                                  error: Option<string>, metadata: map<string, string>, now: int)
    ensures var r := Checked(c, status, times, error, metadata, now);
      && r.metadata.Keys == c.metadata.Keys + metadata.Keys
      && (forall k :: k in metadata ==> r.metadata[k] == metadata[k])
      && (forall k :: k in c.metadata && k !in metadata ==> r.metadata[k] == c.metadata[k])
      && (times.Some? && times.value != [] ==> r.avgResponseTime == Some(Sum(times.value) / |times.value| as real))
      && (times.None? || times.value == [] ==> r.avgResponseTime == c.avgResponseTime)
  {
  }

  /** A component that reports an error: counted, its message kept, and a healthy status turned degraded. */
  function Failed(c: ComponentHealth, message: string): (r: ComponentHealth)
    ensures r.errorCount == c.errorCount + 1 && r.successCount == c.successCount
    ensures r.lastError == Some(message)
    ensures r.status == Escalated(c.status)
  {
    c.(errorCount := c.errorCount + 1, lastError := Some(message),
       status := if c.status == Healthy then Degraded else c.status)
  }

  /** `record_error`'s status change: only healthy becomes degraded. */
  function Escalated(s: ComponentStatus): (r: ComponentStatus)
    ensures s != Healthy ==> r == s
    ensures s == Healthy ==> r == Degraded
  {
    if s == Healthy then Degraded else s
  }

  /** An operation's effect on a known component: one success or one error. */
  function Operated(c: ComponentHealth, success: bool): (r: ComponentHealth)
    ensures r.successCount == c.successCount + (if success then 1 else 0)
    ensures r.errorCount == c.errorCount + (if success then 0 else 1)
    ensures r.status == c.status && r.lastError == c.lastError
  {
    if success then c.(successCount := c.successCount + 1) else c.(errorCount := c.errorCount + 1)
  }

  /** The counter key of an operation. */
  function OperationKey(component: string, operation: string): string
  {
    component + "." + operation
  }

  // ---------------------------------------------------------------------
  // Roll-ups
  // ---------------------------------------------------------------------

  /**
   * The overall status: "error" if any component is in error; else
   * "degraded" if any is unavailable or degraded; else "healthy" if all are
   * healthy (as when there are none); else "unknown".
   */
  function Overall(statuses: seq<ComponentStatus>): (r: string)
    ensures r == "error" <==> Error in statuses
    ensures r == "degraded" <==> Error !in statuses && (Unavailable in statuses || Degraded in statuses)
    ensures r == "healthy" <==> forall s :: s in statuses ==> s == Healthy
    ensures r == "unknown" <==> Error !in statuses && Unavailable !in statuses && Degraded !in statuses && Unknown in statuses
  {
    if Error in statuses then "error"
    else if Unavailable in statuses then "degraded"
    else if Degraded in statuses then "degraded"
    else if forall s :: s in statuses ==> s == Healthy then "healthy"
    else
      assert exists s :: s in statuses && s != Healthy;
      "unknown"
  }

  /** The overall statuses from best to worst. */
  function Severity(overall: string): nat
  {
    if overall == "healthy" then 0 else if overall == "unknown" then 1 else if overall == "degraded" then 2 else 3
  }

  /** An error report never improves the overall status: one component's status may only escalate. */
  lemma ErrorNeverImprovesOverall(statuses: seq<ComponentStatus>, k: int)
    requires 0 <= k < |statuses|
    ensures Severity(Overall(statuses)) <= Severity(Overall(statuses[k := Escalated(statuses[k])]))
  {
    var after := statuses[k := Escalated(statuses[k])];
    assert forall s :: s in statuses && s != Healthy ==> s in after by {
      forall s | s in statuses && s != Healthy ensures s in after {
        var i :| 0 <= i < |statuses| && statuses[i] == s;
        assert after[i] == s;
      }
    }
    assert forall s :: s in after ==> s in statuses || s == Degraded;
    if statuses[k] == Healthy {
      assert after[k] == Degraded;
    }
  }

  /** The names, in registration order, of the components in a given status. */
  function InStatus(order: seq<string>, comps: map<string, ComponentHealth>, s: ComponentStatus): (r: seq<string>)
    requires forall n :: n in order ==> n in comps
    ensures forall n :: n in r <==> n in order && comps[n].status == s
  {
    if order == [] then []
    else
      var init := InStatus(order[..|order| - 1], comps, s);
      var last := order[|order| - 1];
      assert forall n :: n in order <==> n in order[..|order| - 1] || n == last by {
        assert order == order[..|order| - 1] + [last];
      }
      if comps[last].status == s then init + [last] else init
  }

  /** One recommendation of `_generate_recommendations`. */
  datatype Recommendation =
    | HighErrorRate(percent: real)
    | DegradedComponents(names: seq<string>)
    | UnavailableComponents(names: seq<string>)
    | AllNormal

  /**
   * `_generate_recommendations`: a warning when more than 5% of operations
   * failed, one naming the degraded components, one naming the unavailable
   * ones, and an all-clear when there is nothing to say.
   */
  function Recommendations(totalErrors: nat, totalOperations: nat, order: seq<string>,
                           comps: map<string, ComponentHealth>): (r: seq<Recommendation>)
    requires forall n :: n in order ==> n in comps
    ensures r != []
    ensures r == [AllNormal] <==>
      !(totalOperations > 0 && totalErrors * 100 > 5 * totalOperations) &&
      InStatus(order, comps, Degraded) == [] && InStatus(order, comps, Unavailable) == []
    ensures AllNormal in r ==> r == [AllNormal]
    ensures (exists p :: HighErrorRate(p) in r) <==> totalOperations > 0 && totalErrors * 100 > 5 * totalOperations
    ensures DegradedComponents(InStatus(order, comps, Degraded)) in r <==> InStatus(order, comps, Degraded) != []
    ensures UnavailableComponents(InStatus(order, comps, Unavailable)) in r <==> InStatus(order, comps, Unavailable) != []
    ensures totalOperations > 0 && totalErrors * 100 > 5 * totalOperations ==>
      r[0] == HighErrorRate(totalErrors as real / totalOperations as real * 100.0)
    ensures InStatus(order, comps, Unavailable) != [] ==> r[|r| - 1] == UnavailableComponents(InStatus(order, comps, Unavailable))
    ensures |r| == if r == [AllNormal] then 1 else
      (if totalOperations > 0 && totalErrors * 100 > 5 * totalOperations then 1 else 0)
      + (if InStatus(order, comps, Degraded) != [] then 1 else 0)
      + (if InStatus(order, comps, Unavailable) != [] then 1 else 0)
  {
    var rate := if totalOperations > 0 && totalErrors * 100 > 5 * totalOperations
      then [HighErrorRate(totalErrors as real / totalOperations as real * 100.0)] else [];
    var degraded := InStatus(order, comps, Degraded);
    var unavailable := InStatus(order, comps, Unavailable);
    var found := rate
      + (if degraded != [] then [DegradedComponents(degraded)] else [])
      + (if unavailable != [] then [UnavailableComponents(unavailable)] else []);
    assert found == [] <==> rate == [] && degraded == [] && unavailable == [];
    assert AllNormal !in found;
    assert forall p :: HighErrorRate(p) in found ==> HighErrorRate(p) in rate;
    assert DegradedComponents(degraded) in found <==> degraded != [];
    assert UnavailableComponents(unavailable) in found <==> unavailable != [];
    if found == [] then [AllNormal] else found
  }

  /**
   * The text of a recommendation; `rate` stands for the error rate
   * rendered with two decimals.
   */
  function Message(r: Recommendation, rate: string): (m: string)
    ensures m != []
  {
    match r
    case HighErrorRate(_) => "High error rate detected: " + rate + "%. Review error logs and component health."
    case DegradedComponents(names) => "Degraded components detected: " + Text.Join(names, ", ") + ". Review component health and recent errors."
    case UnavailableComponents(names) => "Unavailable components: " + Text.Join(names, ", ") + ". These components need immediate attention."
    case AllNormal => "All systems operating normally."
  }

  /** The errors at or after `cutoff`, in the order they were recorded. */
  function Within(errors: seq<PipelineError>, cutoff: int): (r: seq<PipelineError>)
    ensures |r| <= |errors|
    ensures forall e :: e in r <==> e in errors && e.timestamp >= cutoff
  {
    if errors == [] then []
    else
      var init := errors[..|errors| - 1];
      var last := errors[|errors| - 1];
      assert errors == init + [last];
      if last.timestamp >= cutoff then Within(init, cutoff) + [last] else Within(init, cutoff)
  }

  /** How often each key occurs. */
  function Tally(keys: seq<string>): (r: map<string, nat>)
    ensures forall k :: k in r <==> k in keys
    ensures forall k :: k in r ==> r[k] == multiset(keys)[k]
  {
    if keys == [] then map[]
    else
      var init := keys[..|keys| - 1];
      var last := keys[|keys| - 1];
      assert keys == init + [last];
      var t := Tally(init);
      t[last := (if last in t then t[last] else 0) + 1]
  }

  /** An error with its message cut to at most `n` characters. */
  function Clipped(e: PipelineError, n: nat): (r: PipelineError)
    ensures |r.message| <= n && |r.message| <= |e.message| && r.message == e.message[..|r.message|]
    ensures r.(message := e.message) == e
  {
    e.(message := Text.SliceTo(e.message, n))
  }

  datatype ErrorSummary = ErrorSummary(
    totalErrors: nat,
    byType: map<string, nat>,
    byComponent: map<string, nat>,
    recent: seq<PipelineError>)

  /** The error type of each error, in order. */
  function ErrorTypes(w: seq<PipelineError>): (r: seq<string>)
    ensures forall t :: t in r <==> exists e :: e in w && e.errorType == t
  {
    var r := seq(|w|, i requires 0 <= i < |w| => w[i].errorType);
    forall t | t in r ensures exists e :: e in w && e.errorType == t {
      var i :| 0 <= i < |r| && r[i] == t;
      assert w[i] in w;
    }
    forall t | exists e :: e in w && e.errorType == t ensures t in r {
      var e :| e in w && e.errorType == t;
      var i :| 0 <= i < |w| && w[i] == e;
      assert r[i] == t;
    }
    r
  }

  /** The component of each error, in order. */
  function Components(w: seq<PipelineError>): (r: seq<string>)
    ensures forall c :: c in r <==> exists e :: e in w && e.component == c
  {
    var r := seq(|w|, i requires 0 <= i < |w| => w[i].component);
    forall c | c in r ensures exists e :: e in w && e.component == c {
      var i :| 0 <= i < |r| && r[i] == c;
      assert w[i] in w;
    }
    forall c | exists e :: e in w && e.component == c ensures c in r {
      var e :| e in w && e.component == c;
      var i :| 0 <= i < |w| && w[i] == e;
      assert r[i] == c;
    }
    r
  }

  /** `[... for e in w[-n:]]` with `e.message[:width]`: the last `n` errors, messages cut to `width` characters. */
  function LastClipped(w: seq<PipelineError>, n: nat, width: nat): (r: seq<PipelineError>)
    ensures |r| == if |w| <= n then |w| else n
    ensures forall i :: 0 <= i < |r| ==>
      |r[i].message| <= width && |r[i].message| <= |w[|w| - |r| + i].message| &&
      r[i].message == w[|w| - |r| + i].message[..|r[i].message|] &&
      r[i].(message := w[|w| - |r| + i].message) == w[|w| - |r| + i]
  {
    var last := Newest(w, n);
    var r := seq(|last|, i requires 0 <= i < |last| => Clipped(last[i], width));
    forall i | 0 <= i < |r|
      ensures |r[i].message| <= width && |r[i].message| <= |w[|w| - |r| + i].message|
      ensures r[i].message == w[|w| - |r| + i].message[..|r[i].message|]
      ensures r[i].(message := w[|w| - |r| + i].message) == w[|w| - |r| + i]
    {
      assert last[i] == w[|w| - |last| + i];
    }
    r
  }

  /** The last ten errors, each with its message cut to 200 characters. */
  function RecentClipped(w: seq<PipelineError>): (r: seq<PipelineError>)
    ensures |r| == if |w| <= 10 then |w| else 10
    ensures forall i :: 0 <= i < |r| ==> |r[i].message| <= 200 && r[i].(message := w[|w| - |r| + i].message) == w[|w| - |r| + i]
  {
    LastClipped(w, 10, 200)
  }

  /**
   * `get_error_summary` over a list of errors: how many fall in the window,
   * how many of each type and component, and the last ten with messages cut
   * to 200 characters.
   */
  function Summarize(errors: seq<PipelineError>, cutoff: int): (r: ErrorSummary)
    ensures r.totalErrors <= |errors|
    ensures r.totalErrors == |Within(errors, cutoff)|
    ensures forall t :: t in r.byType <==> exists e :: e in errors && e.timestamp >= cutoff && e.errorType == t
    ensures forall c :: c in r.byComponent <==> exists e :: e in errors && e.timestamp >= cutoff && e.component == c
    ensures |r.recent| <= 10 && |r.recent| <= r.totalErrors
    ensures forall i :: 0 <= i < |r.recent| ==> r.recent[i].timestamp >= cutoff && |r.recent[i].message| <= 200
    ensures r.byType == Tally(ErrorTypes(Within(errors, cutoff)))
    ensures r.byComponent == Tally(Components(Within(errors, cutoff)))
    ensures r.recent == RecentClipped(Within(errors, cutoff))
  {
    var w := Within(errors, cutoff);
    ErrorSummary(|w|, Tally(ErrorTypes(w)), Tally(Components(w)), RecentClipped(w))
  }

  datatype Metrics = Metrics(count: nat, avg: real, min: real, max: real, p95: real, p99: real)

  /** `get_performance_metrics` for one key with at least one time: the summary figures keep their natural order. */
  function MetricsOf(times: seq<real>): (m: Metrics)
    requires times != []
    ensures m.count == |times|
    ensures m.avg == Sum(times) / |times| as real
    ensures m.min == Min(times) && m.max == Max(times)
    ensures m.p95 == Percentile(times, 95) && m.p99 == Percentile(times, 99)
    ensures m.min in times && m.max in times
    ensures m.min <= m.avg <= m.max
    ensures m.min <= m.p95 <= m.p99 <= m.max
  {
    SummaryOrdered(times);
    Metrics(|times|, Sum(times) / |times| as real, Min(times), Max(times), Percentile(times, 95), Percentile(times, 99))
  }

  lemma SummaryOrdered(times: seq<real>)
    requires times != []
    ensures Min(times) <= Sum(times) / |times| as real <= Max(times)
    ensures Min(times) <= Percentile(times, 95) <= Percentile(times, 99) <= Max(times)
  {
    MeanOrdered(times);
    var p95, p99 := Percentile(times, 95), Percentile(times, 99);
    PercentileMonotone(times, 95, 99);
    assert p95 in times && p99 in times;
  }

  /**
   * `_identify_performance_issues` for one key: enough samples, a mean over
   * one second, and a 95th percentile above twice the mean.
   */
  function HighP95Latency(times: seq<real>): (flagged: bool)
    ensures flagged ==> |times| > 10 && exists x :: x in times && x > 2.0
    ensures flagged <==>
      (|times| > 10 && Percentile(times, 95) > Sum(times) / |times| as real * 2.0 && Sum(times) / |times| as real > 1.0)
  {
    if |times| > 10 then
      var m := MetricsOf(times);
      var flagged := m.p95 > m.avg * 2.0 && m.avg > 1.0;
      assert flagged ==> m.p95 in times && m.p95 > 2.0;
      flagged
    else false
  }

  /** A component `get_diagnostics` lists as a problem: in error or degraded, with its last five errors, messages cut to 100 characters. */
  datatype Problem = Problem(component: string, status: ComponentStatus, errorCount: nat,
                             lastError: Option<string>, recent: seq<PipelineError>)

  /** The components in error or degraded, in registration order. */
  function Flagged(order: seq<string>, comps: map<string, ComponentHealth>): (r: seq<string>)
    requires forall n :: n in order ==> n in comps
    ensures forall n :: n in r <==> n in order && comps[n].status in {Error, Degraded}
  {
    if order == [] then []
    else
      var init := order[..|order| - 1];
      var last := order[|order| - 1];
      assert order == init + [last];
      Flagged(init, comps) + (if comps[last].status in {Error, Degraded} then [last] else [])
  }

  /** No name occurs twice. */
  predicate Distinct(xs: seq<string>)
  {
    forall i, j :: 0 <= i < j < |xs| ==> xs[i] != xs[j]
  }

  /** A registry without repeats flags each component at most once. */
  lemma {:induction false} FlaggedDistinct(order: seq<string>, comps: map<string, ComponentHealth>)
    requires forall n :: n in order ==> n in comps
    requires Distinct(order)
    ensures Distinct(Flagged(order, comps))
  {
    if order != [] {
      var init := order[..|order| - 1];
      var last := order[|order| - 1];
      assert order == init + [last];
      assert Distinct(init) by {
        forall i, j | 0 <= i < j < |init| ensures init[i] != init[j] {
          assert init[i] == order[i] && init[j] == order[j];
        }
      }
      FlaggedDistinct(init, comps);
      var f := Flagged(init, comps);
      assert Distinct(f);
      assert Flagged(order, comps) == f + (if comps[last].status in {Error, Degraded} then [last] else []);
      assert last !in f by {
        forall k | 0 <= k < |init| ensures init[k] != last {
          assert init[k] == order[k];
        }
      }
      var r := Flagged(order, comps);
      forall i, j | 0 <= i < j < |r| ensures r[i] != r[j] {
        if j < |f| {
          assert r[i] == f[i] && r[j] == f[j];
        } else {
          assert r[i] == f[i] && f[i] in f && r[j] == last;
        }
      }
    }
  }

  /** Over a registry without repeats, each problem component is listed once. */
  lemma ProblemsDistinct(order: seq<string>, comps: map<string, ComponentHealth>,
                         byComponent: map<string, seq<PipelineError>>)
    requires forall n :: n in order ==> n in comps
    requires Distinct(order)
    ensures forall i, j :: 0 <= i < j < |Problems(order, comps, byComponent)| ==>
      Problems(order, comps, byComponent)[i].component != Problems(order, comps, byComponent)[j].component
  {
    FlaggedDistinct(order, comps);
    var f, r := Flagged(order, comps), Problems(order, comps, byComponent);
    assert Distinct(f);
    forall i, j | 0 <= i < j < |r| ensures r[i].component != r[j].component {
      assert r[i].component == f[i] && r[j].component == f[j];
    }
  }

  /** The errors recorded against a component, oldest first. */
  function ErrorsOf(byComponent: map<string, seq<PipelineError>>, name: string): seq<PipelineError>
  {
    if name in byComponent then byComponent[name] else []
  }

  /**
   * One entry of `problematic_components`: the component's status, error
   * count and last error, and its last five errors, messages cut to 100
   * characters.
   */
  function ProblemOf(name: string, comps: map<string, ComponentHealth>,
                     byComponent: map<string, seq<PipelineError>>): (p: Problem)
    requires name in comps
  {
    var c := comps[name];
    Problem(name, c.status, c.errorCount, c.lastError, LastClipped(ErrorsOf(byComponent, name), 5, 100))
  }

  /** `problematic_components` of `get_diagnostics`, in registration order. */
  function Problems(order: seq<string>, comps: map<string, ComponentHealth>,
                    byComponent: map<string, seq<PipelineError>>): (r: seq<Problem>)
    requires forall n :: n in order ==> n in comps
    ensures forall n :: (exists p :: p in r && p.component == n) <==>
      n in order && comps[n].status in {Error, Degraded}
    ensures forall p :: p in r ==> p.status == comps[p.component].status && |p.recent| <= 5
    ensures |r| == |Flagged(order, comps)|
    ensures forall i :: 0 <= i < |r| ==> r[i].component == Flagged(order, comps)[i]
    ensures forall p :: p in r ==>
      p.errorCount == comps[p.component].errorCount && p.lastError == comps[p.component].lastError &&
      p.recent == LastClipped(ErrorsOf(byComponent, p.component), 5, 100)
  {
    var f := Flagged(order, comps);
    var r := seq(|f|, i requires 0 <= i < |f| => ProblemOf(f[i], comps, byComponent));
    forall n | n in f ensures exists p :: p in r && p.component == n {
      var i :| 0 <= i < |f| && f[i] == n;
      assert r[i] in r;
    }
    r
  }

  /**
   * The part of `get_diagnostics` modelled here: the problem components, the
   * error counts of the last hour and day, and the most frequent error types.
   */
  datatype Diagnostics = Diagnostics(problems: seq<Problem>, lastHour: nat, lastDay: nat,
                                     topErrorTypes: map<string, nat>)

  /** Some map has a key whose count no other key exceeds. */
  lemma {:induction false} MostFrequentExists(m: map<string, nat>)
    requires m != map[]
    ensures exists k :: k in m && forall j :: j in m ==> m[j] <= m[k]
    decreases |m|
  {
    var p := Pick(m);
    var rest := m - {p};
    if rest == map[] {
      assert m.Keys == rest.Keys + {p};
    } else {
      assert |rest| < |m| by { assert m.Keys == rest.Keys + {p}; }
      MostFrequentExists(rest);
      var q :| q in rest && forall j :: j in rest ==> rest[j] <= rest[q];
      if m[p] <= m[q] {
        assert forall j :: j in m ==> m[j] <= m[q];
      } else {
        assert forall j :: j in m ==> m[j] <= m[p];
      }
    }
  }

  /** A key with the greatest count. */
  ghost function MostFrequent(m: map<string, nat>): (k: string)
    requires m != map[]
    ensures k in m && forall j :: j in m ==> m[j] <= m[k]
  {
    MostFrequentExists(m);
    var k :| k in m && forall j :: j in m ==> m[j] <= m[k]; k
  }

  /**
   * `dict(sorted(m.items(), key=count, reverse=True)[:n])`: `n` keys (or all
   * of them) with their counts, none of them less frequent than a key left out.
   */
  ghost function TopCounts(m: map<string, nat>, n: nat): (r: map<string, nat>)
    ensures forall k :: k in r ==> k in m && r[k] == m[k]
    ensures |r| == if |m| <= n then |m| else n
    ensures forall a, b :: a in r && b in m && b !in r ==> m[b] <= m[a]
    decreases n
  {
    if n == 0 || m == map[] then map[]
    else
      var k := MostFrequent(m);
      var rest := TopCounts(m - {k}, n - 1);
      assert |m - {k}| == |m| - 1 by { assert m.Keys == (m - {k}).Keys + {k}; }
      assert (rest[k := m[k]]).Keys == rest.Keys + {k};
      rest[k := m[k]]
  }

  /** Some key of a non-empty map. */
  ghost function Pick(m: map<string, nat>): (k: string)
    requires m != map[]
    ensures k in m
  {
    var k :| k in m; k
  }

  /** `sum(d.values())`. */
  ghost function SumValues(m: map<string, nat>): nat
    decreases |m|
  {
    if m == map[] then 0
    else
      var k := Pick(m);
      assert |m - {k}| < |m| by { assert m.Keys == (m - {k}).Keys + {k}; }
      m[k] + SumValues(m - {k})
  }

  /** The sum does not depend on which key is taken first. */
  lemma {:induction false} SumValuesRemove(m: map<string, nat>, k: string)
    requires k in m
    ensures SumValues(m) == SumValues(m - {k}) + m[k]
    decreases |m|
  {
    var j := Pick(m);
    assert |m - {j}| < |m| by { assert m.Keys == (m - {j}).Keys + {j}; }
    if j != k {
      assert |m - {k}| < |m| by { assert m.Keys == (m - {k}).Keys + {k}; }
      SumValuesRemove(m - {j}, k);
      SumValuesRemove(m - {k}, j);
      assert m - {j} - {k} == m - {k} - {j};
    }
  }

  /** Counting one more operation adds one to the total. */
  lemma CountedOperationAddsOne(m: map<string, nat>, k: string)
    ensures SumValues(m[k := Count(m, k) + 1]) == SumValues(m) + 1
  {
    var m' := m[k := Count(m, k) + 1];
    SumValuesRemove(m', k);
    assert m' - {k} == m - {k};
    if k in m {
      SumValuesRemove(m, k);
    } else {
      assert m - {k} == m;
    }
  }

  /** What `get_pipeline_status` reports, apart from the per-component and performance details. */
  datatype PipelineStatus = PipelineStatus(overall: string, errorsLastDay: nat, totalOperations: nat,
                                           totalErrors: nat, componentsTracked: nat)

  // ---------------------------------------------------------------------
  // Lock use of get_pipeline_status
  // ---------------------------------------------------------------------

  /**
   * The lock steps of `get_pipeline_status` as written: it holds the
   * monitor's lock while calling `get_error_summary`, which takes it again.
   */
  function StatusLockStepsAsWritten(): seq<Locks.Step>
  {
    [Locks.Acquire, Locks.Acquire, Locks.Release, Locks.Release]
  }

  /** As written, every status request blocks its thread for good at the nested acquisition. */
  lemma StatusRequestSelfDeadlocks()
    ensures Locks.Run(StatusLockStepsAsWritten(), false, 0) == Locks.SelfDeadlock(1)
  {
    Locks.NestedAcquireBlocks([], [Locks.Release, Locks.Release]);
    assert [] + [Locks.Acquire, Locks.Acquire] + [Locks.Release, Locks.Release] == StatusLockStepsAsWritten();
  }

  /**
   * The status as modelled below: the error summary is computed inside the
   * one critical section. The trace is written down for that corrected code;
   * it is not derived from `Monitor.Status`, which has no lock in this model.
   */
  function StatusLockSteps(): (r: seq<Locks.Step>)
    ensures r == Locks.Sections(1)
  {
    [Locks.Acquire, Locks.Release]
  }

  /** Any number of status requests run to the end and leave the lock free. */
  lemma StatusRequestsNeverBlock(k: nat)
    ensures Locks.Run(Locks.Sections(k), false, 0) == Locks.Done(false)
  {
    Locks.SectionsNeverBlock(k, 0);
  }

  // ---------------------------------------------------------------------
  // The monitor
  // ---------------------------------------------------------------------

  class Monitor {
    const maxErrorHistory: nat
    const maxMetricHistory: nat
    var order: seq<string>
    var components: map<string, ComponentHealth>
    var errors: seq<PipelineError>
    var errorCounts: map<string, nat>
    var errorByComponent: map<string, seq<PipelineError>>
    var responseTimes: map<string, seq<real>>
    var operationCounts: map<string, nat>

    /** The bounded histories stay bounded, and `order` lists each component once. */
    predicate Valid()
      reads this
    {
      |errors| <= maxErrorHistory &&
      Bounded(responseTimes, maxMetricHistory) &&
      Registry(order, components)
    }

    /** The seven known components, each unknown as of `now`, and empty histories. */
    constructor(maxErrorHistory: nat, maxMetricHistory: nat, now: int)
      ensures Valid()
      ensures this.maxErrorHistory == maxErrorHistory && this.maxMetricHistory == maxMetricHistory
      ensures order == KnownComponents
      ensures forall n :: n in components ==> components[n] == Fresh(Unknown, now)
      ensures errors == [] && errorCounts == map[] && errorByComponent == map[]
      ensures responseTimes == map[] && operationCounts == map[]
    {
      this.maxErrorHistory := maxErrorHistory;
      this.maxMetricHistory := maxMetricHistory;
      order := KnownComponents;
      components := map n | n in KnownComponents :: Fresh(Unknown, now);
      errors := [];
      errorCounts := map[];
      errorByComponent := map[];
      responseTimes := map[];
      operationCounts := map[];
    }

    /** The components' statuses in registration order. */
    function Statuses(): (r: seq<ComponentStatus>)
      reads this
      requires Valid()
      ensures |r| == |order|
    {
      seq(|order|, i requires 0 <= i < |order| && order[i] in components reads this => components[order[i]].status)
    }

    /** `record_component_check`; an unknown component is registered first. */
    method RecordComponentCheck(component: string, status: ComponentStatus, responseTime: Option<real>,
                                error: Option<string>, metadata: map<string, string>, now: int)
      requires Valid()
      modifies this
      ensures Valid()
      ensures order == if component in old(components) then old(order) else old(order) + [component]
      ensures responseTimes == if responseTime.Some?
        then old(responseTimes)[component := Push(Times(old(responseTimes), component), responseTime.value, maxMetricHistory)]
        else old(responseTimes)
      ensures components == old(components)[component := Checked(
        if component in old(components) then old(components)[component] else Fresh(status, now),
        status, if responseTime.Some? then Some(responseTimes[component]) else None, error, metadata, now)]
      ensures errors == old(errors) && errorCounts == old(errorCounts) && errorByComponent == old(errorByComponent)
      ensures operationCounts == old(operationCounts)
    {
      var known := component in components;
      if responseTime.Some? {
        var kept := Push(Times(responseTimes, component), responseTime.value, maxMetricHistory);
        BoundedUpdate(responseTimes, maxMetricHistory, component, kept);
        responseTimes := responseTimes[component := kept];
      }
      var checked := Checked(if known then components[component] else Fresh(status, now),
        status, if responseTime.Some? then Some(responseTimes[component]) else None, error, metadata, now);
      if known {
        UpdatedRegistered(order, components, component, checked);
      } else {
        Registered(order, components, component, checked);
        order := order + [component];
      }
      components := components[component := checked];
      assert |errors| <= maxErrorHistory && Bounded(responseTimes, maxMetricHistory);
    }

    /** `record_error`: into the bounded history, the per-type count and the per-component list; a known component is marked. */
    method RecordError(component: string, errorType: string, message: string, now: int)
      requires Valid()
      modifies this
      ensures Valid()
      ensures errors == Push(old(errors), PipelineError(now, component, errorType, message), maxErrorHistory)
      ensures errorCounts == old(errorCounts)[errorType := Count(old(errorCounts), errorType) + 1]
      ensures errorByComponent == old(errorByComponent)[component :=
        (if component in old(errorByComponent) then old(errorByComponent)[component] else []) + [PipelineError(now, component, errorType, message)]]
      ensures components == if component in old(components)
        then old(components)[component := Failed(old(components)[component], message)]
        else old(components)
      ensures order == old(order) && responseTimes == old(responseTimes) && operationCounts == old(operationCounts)
    {
      var e := PipelineError(now, component, errorType, message);
      errors := Push(errors, e, maxErrorHistory);
      errorCounts := errorCounts[errorType := Count(errorCounts, errorType) + 1];
      var listed := if component in errorByComponent then errorByComponent[component] else [];
      errorByComponent := errorByComponent[component := listed + [e]];
      if component in components {
        components := components[component := Failed(components[component], message)];
      }
    }

    /** `record_operation`: counts the operation, keeps its duration, and credits a known component. */
    method RecordOperation(component: string, operation: string, duration: real, success: bool)
      requires Valid()
      modifies this
      ensures Valid()
      ensures operationCounts == old(operationCounts)[OperationKey(component, operation) :=
        Count(old(operationCounts), OperationKey(component, operation)) + 1]
      ensures responseTimes == old(responseTimes)[OperationKey(component, operation) :=
        Push(Times(old(responseTimes), OperationKey(component, operation)), duration, maxMetricHistory)]
      ensures components == if component in old(components)
        then old(components)[component := Operated(old(components)[component], success)]
        else old(components)
      ensures order == old(order) && errors == old(errors) && errorCounts == old(errorCounts)
      ensures errorByComponent == old(errorByComponent)
      ensures TotalOperations() == old(TotalOperations()) + 1
    {
      var key := OperationKey(component, operation);
      ghost var counted := operationCounts;
      operationCounts := operationCounts[key := Count(operationCounts, key) + 1];
      CountedOperationAddsOne(counted, key);
      assert SumValues(operationCounts) == SumValues(counted) + 1;
      var kept := Push(Times(responseTimes, key), duration, maxMetricHistory);
      BoundedUpdate(responseTimes, maxMetricHistory, key, kept);
      responseTimes := responseTimes[key := kept];
      if component in components {
        components := components[component := Operated(components[component], success)];
      }
    }

    /** `get_error_summary`: all errors, or one component's when a name is given, of the last `hours` hours. */
    function ErrorSummaryFor(component: string, hours: int, now: int): (r: ErrorSummary)
      reads this
      ensures component == [] ==> r == Summarize(errors, now - hours * 3600)
      ensures component != [] ==> r.totalErrors <= |if component in errorByComponent then errorByComponent[component] else []|
      ensures component != [] ==>
        r == Summarize(if component in errorByComponent then errorByComponent[component] else [], now - hours * 3600)
    {
      Summarize(if component != [] then (if component in errorByComponent then errorByComponent[component] else []) else errors,
                now - hours * 3600)
    }

    /** `get_performance_metrics`: a summary for every key that has response times. */
    function PerformanceMetrics(): (r: map<string, Metrics>)
      reads this
      ensures forall k :: k in r <==> k in responseTimes && responseTimes[k] != []
      ensures forall k :: k in r ==> r[k].count == |responseTimes[k]| && r[k].p95 <= r[k].p99
      ensures forall k :: k in r ==> r[k] == MetricsOf(responseTimes[k])
    {
      map k | k in responseTimes && responseTimes[k] != [] :: MetricsOf(responseTimes[k])
    }

    /** `_identify_performance_issues`: the keys whose latency is flagged. */
    function PerformanceIssues(): (r: set<string>)
      reads this
      ensures forall k :: k in r ==> k in responseTimes && |responseTimes[k]| > 10
      ensures forall k :: k in r ==> exists x :: x in responseTimes[k] && x > 2.0
      ensures forall k :: k in responseTimes && |responseTimes[k]| <= 10 ==> k !in r
      ensures forall k :: k in r <==>
        (k in responseTimes && |responseTimes[k]| > 10 &&
         Percentile(responseTimes[k], 95) > Sum(responseTimes[k]) / |responseTimes[k]| as real * 2.0 &&
         Sum(responseTimes[k]) / |responseTimes[k]| as real > 1.0)
    {
      set k | k in responseTimes && HighP95Latency(responseTimes[k])
    }

    /** `get_diagnostics`, computed in one critical section. */
    ghost function DiagnosticsAt(now: int): (r: Diagnostics)
      reads this
      requires Valid()
      ensures r.lastHour <= r.lastDay <= |errors|
      ensures r.lastHour == |Within(errors, now - 3600)| && r.lastDay == |Within(errors, now - 86400)|
      ensures r.problems == Problems(order, components, errorByComponent)
      ensures forall i, j :: 0 <= i < j < |r.problems| ==> r.problems[i].component != r.problems[j].component
      ensures r.topErrorTypes == TopCounts(errorCounts, 10)
    {
      ProblemsDistinct(order, components, errorByComponent);
      var hour := ErrorSummaryFor([], 1, now);
      var day := ErrorSummaryFor([], 24, now);
      assert hour.totalErrors == |Within(errors, now - 3600)|;
      assert day.totalErrors == |Within(errors, now - 86400)|;
      WithinMonotone(errors, now - 3600, now - 86400);
      Diagnostics(Problems(order, components, errorByComponent), hour.totalErrors, day.totalErrors,
                  TopCounts(errorCounts, 10))
    }

    /** The operations counted so far. */
    ghost function TotalOperations(): nat
      reads this
    {
      SumValues(operationCounts)
    }

    /** `_generate_recommendations` on the current state. */
    ghost function CurrentRecommendations(): (r: seq<Recommendation>)
      reads this
      requires Valid()
      ensures r != []
    {
      Recommendations(|errors|, TotalOperations(), order, components)
    }

    /**
     * `get_pipeline_status`, computed in one critical section: the overall
     * status, the errors of the last 24 hours among those kept, the
     * operations counted, and the history's and registry's sizes.
     */
    ghost function Status(now: int): (r: PipelineStatus)
      reads this
      requires Valid()
      ensures r.overall == Overall(Statuses())
      ensures r.errorsLastDay <= r.totalErrors <= maxErrorHistory
      ensures r.componentsTracked == |order|
      ensures r.errorsLastDay == |Within(errors, now - 86400)|
      ensures r.totalOperations == TotalOperations() && r.totalErrors == |errors|
    {
      DistinctCount(order, components);
      PipelineStatus(Overall(Statuses()), ErrorSummaryFor([], 24, now).totalErrors, TotalOperations(),
                     |errors|, |components|)
    }
  }

  /** A wider window holds at least as many errors. */
  lemma {:induction false} WithinMonotone(errors: seq<PipelineError>, late: int, early: int)
    requires early <= late
    ensures |Within(errors, late)| <= |Within(errors, early)|
  {
    if errors != [] {
      WithinMonotone(errors[..|errors| - 1], late, early);
    }
  }

  /** Every list of times holds at most `n` entries. */
  predicate Bounded(times: map<string, seq<real>>, n: nat)
  {
    forall k :: k in times ==> |times[k]| <= n
  }

  /** Replacing one key's times by a short enough list keeps the bound. */
  lemma BoundedUpdate(times: map<string, seq<real>>, n: nat, key: string, kept: seq<real>)
    requires Bounded(times, n) && |kept| <= n
    ensures Bounded(times[key := kept], n)
  {
  }

  /** `order` lists each registered component exactly once, in registration order. */
  predicate Registry(order: seq<string>, comps: map<string, ComponentHealth>)
  {
    (forall n :: n in order ==> n in comps) && (forall n :: n in comps ==> n in order) &&
    Distinct(order)
  }

  /** Updating a registered component keeps the registry. */
  lemma UpdatedRegistered(order: seq<string>, comps: map<string, ComponentHealth>, name: string, c: ComponentHealth)
    requires Registry(order, comps) && name in comps
    ensures Registry(order, comps[name := c])
  {
  }

  /** A component checked for the first time goes to the end of the listing order. */
  lemma Registered(order: seq<string>, comps: map<string, ComponentHealth>, name: string, c: ComponentHealth)
    requires Registry(order, comps) && name !in comps
    ensures Registry(order + [name], comps[name := c])
  {
    var o := order + [name];
    forall i, j | 0 <= i < j < |o| ensures o[i] != o[j] {
      if j == |order| {
        assert o[i] == order[i] && order[i] in order;
      }
    }
  }

  /** A counter's value, 0 for a key not seen yet. */
  function Count(m: map<string, nat>, k: string): nat
  {
    if k in m then m[k] else 0
  }

  /** A key's response times, empty for a key not seen yet. */
  function Times(m: map<string, seq<real>>, k: string): seq<real>
  {
    if k in m then m[k] else []
  }

  /** A list of distinct names has as many entries as the set of its names. */
  lemma {:induction false} DistinctCount(order: seq<string>, comps: map<string, ComponentHealth>)
    requires forall n :: n in order <==> n in comps
    requires Distinct(order)
    ensures |comps| == |order|
  {
    if order == [] {
      assert comps.Keys == {};
    } else {
      var last := order[|order| - 1];
      var init := order[..|order| - 1];
      assert last !in init;
      var rest := comps - {last};
      assert forall n :: n in init <==> n in rest by {
        assert order == init + [last];
      }
      DistinctCount(init, rest);
    }
  }
}
