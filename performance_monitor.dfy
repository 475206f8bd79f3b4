/**
 * The request performance monitor: a bounded global history of request
 * durations, per-endpoint request and error counters, bounded per-endpoint
 * duration lists, and the metrics computed from a snapshot of them.
 *
 * The clock is a `now` parameter; CPU and memory readings of the process
 * are not part of this model.
 */
module PerformanceMonitor {
  import opened History

  /**
   * The per-endpoint trim as written: a list longer than `maxHistory` is cut
   * to `times[-maxHistory:]`, and for a bound of 0 that slice starts at
   * index 0 and keeps the whole list.
   */
  function TrimAsWritten(times: seq<real>, maxHistory: nat): (r: seq<real>)
    ensures maxHistory > 0 ==> r == Newest(times, maxHistory)
    ensures maxHistory == 0 ==> r == times
  {
    if |times| > maxHistory then
      (if maxHistory == 0 then times else times[|times| - maxHistory..])
    else times
  }

  /**
   * With a bound of 0, the as-written trim lets an endpoint's list grow by
   * one entry per request, while the global history keeps none.
   */
  lemma TrimAsWrittenUnbounded(times: seq<real>, d: real)
    ensures |TrimAsWritten(times + [d], 0)| == |times| + 1
    ensures Push(times, d, 0) == [] && Newest(times + [d], 0) == []
  {
  }

  /** The global figures of `get_metrics`, all 0 when no request is kept. */
  datatype Global = Global(avg: real, min: real, max: real, p95: real, p99: real)

  /**
   * The global figures: the mean, the first and last of the sorted
   * durations, and the 95th and 99th percentiles, whose index
   * `int(n * q)` is clamped to the last element.
   */
  function GlobalMetrics(times: seq<real>): (g: Global)
    ensures times == [] ==> g == Global(0.0, 0.0, 0.0, 0.0, 0.0)
    ensures times != [] ==> g.min in times && g.max in times && g.p95 in times && g.p99 in times
    ensures times != [] ==> forall x :: x in times ==> g.min <= x <= g.max
    ensures times != [] ==> g.min <= g.avg <= g.max
    ensures g.p95 <= g.p99
    ensures times != [] ==> g.avg == Sum(times) / |times| as real
    ensures times != [] ==> g.min == Percentile(times, 0) && g.max == Percentile(times, 100)
    ensures g.p95 == Percentile(times, 95) && g.p99 == Percentile(times, 99)
  {
    if times == [] then Global(0.0, 0.0, 0.0, 0.0, 0.0)
    else
      var lo, hi := Percentile(times, 0), Percentile(times, 100);
      Spread(times);
      PercentileMonotone(times, 95, 99);
      Global(Sum(times) / |times| as real, lo, hi, Percentile(times, 95), Percentile(times, 99))
  }

  /** The first and last of the sorted durations bound all of them, and so their mean. */
  lemma Spread(times: seq<real>)
    requires times != []
    ensures forall x :: x in times ==> Percentile(times, 0) <= x <= Percentile(times, 100)
    ensures Percentile(times, 0) <= Sum(times) / |times| as real <= Percentile(times, 100)
  {
    var lo, hi := Percentile(times, 0), Percentile(times, 100);
    forall x | x in times ensures lo <= x <= hi {
      PercentileExtremes(times, x);
    }
    forall k | 0 <= k < |times| ensures lo <= times[k] <= hi {
      assert times[k] in times;
    }
    MeanWithin(times, lo, hi);
  }

  /** The figures of one endpoint. */
  datatype Endpoint = Endpoint(count: nat, errorCount: nat, successRate: real, avg: real, min: real, max: real, p95: real)

  /** One endpoint's figures, from its counters and its (non-empty) kept durations. */
  function EndpointMetrics(count: nat, errors: nat, times: seq<real>): (r: Endpoint)
    requires count > 0 && times != []
    ensures r.count == count && r.errorCount == errors
    ensures errors <= count ==> 0.0 <= r.successRate <= 1.0
    ensures errors == 0 ==> r.successRate == 1.0
    ensures r.min <= r.avg <= r.max && r.min <= r.p95 <= r.max
    ensures r.successRate == SuccessRate(errors, count)
    ensures r.avg == GlobalMetrics(times).avg && r.min == GlobalMetrics(times).min
    ensures r.max == GlobalMetrics(times).max && r.p95 == GlobalMetrics(times).p95
  {
    var g := GlobalMetrics(times);
    Endpoint(count, errors, SuccessRate(errors, count), g.avg, g.min, g.max, g.p95)
  }

  /** `1 - errors / count`: a fraction whenever there are no more errors than requests. */
  function SuccessRate(errors: nat, count: nat): (r: real)
    requires count > 0
    ensures errors <= count ==> 0.0 <= r <= 1.0
    ensures r == 1.0 <==> errors == 0
    ensures errors == count ==> r == 0.0
  {
    var q := errors as real / count as real;
    Quotient(errors as real, count as real, q);
    1.0 - q
  }

  /** The quotient of a count by a positive total is a fraction exactly when the count is at most the total. */
  lemma Quotient(e: real, c: real, q: real)
    requires 0.0 < c && 0.0 <= e && q == e / c
    ensures 0.0 <= q && (q == 0.0 <==> e == 0.0)
    ensures e <= c ==> q <= 1.0
    ensures e == c ==> q == 1.0
  {
    assert q * c == e;
  }

  /** What `get_metrics` reports, apart from the process's resource use. */
  datatype Snapshot = Snapshot(uptime: real, totalRequests: nat, global: Global, endpoints: map<string, Endpoint>)

  /** A counter's value, 0 for a key not seen yet. */
  function Count(m: map<string, nat>, k: string): nat
  {
    if k in m then m[k] else 0
  }

  /**
   * Every endpoint with kept times has been requested and keeps at most
   * `maxHistory` of them, and no endpoint has more errors than requests.
   */
  predicate Consistent(requests: map<string, nat>, errors: map<string, nat>, times: map<string, seq<real>>, maxHistory: nat)
  {
    (forall e :: e in times ==> |times[e]| <= maxHistory && Count(requests, e) > 0) &&
    (forall e :: e in errors ==> errors[e] <= Count(requests, e))
  }

  /** Recording one request keeps the counters and the per-endpoint histories consistent. */
  lemma RecordConsistent(requests: map<string, nat>, errors: map<string, nat>, times: map<string, seq<real>>,
                         maxHistory: nat, endpoint: string, duration: real, success: bool)
    requires Consistent(requests, errors, times, maxHistory)
    ensures var kept := if endpoint in times then times[endpoint] else [];
      Consistent(requests[endpoint := Count(requests, endpoint) + 1],
                 if success then errors else errors[endpoint := Count(errors, endpoint) + 1],
                 times[endpoint := Newest(kept + [duration], maxHistory)], maxHistory)
  {
  }

  class Monitor {
    const maxHistory: nat
    var requestTimes: seq<real>
    var requestCounts: map<string, nat>
    var errorCounts: map<string, nat>
    var endpointTimes: map<string, seq<real>>
    var startTime: real

    /**
     * Both histories stay within the bound, every endpoint with kept times
     * has been requested, and no endpoint has more errors than requests.
     */
    predicate Valid()
      reads this
    {
      |requestTimes| <= maxHistory && Consistent(requestCounts, errorCounts, endpointTimes, maxHistory)
    }

    constructor(maxHistory: nat, now: real)
      ensures Valid()
      ensures this.maxHistory == maxHistory && startTime == now
      ensures requestTimes == [] && requestCounts == map[] && errorCounts == map[] && endpointTimes == map[]
    {
      this.maxHistory := maxHistory;
      requestTimes := [];
      requestCounts := map[];
      errorCounts := map[];
      endpointTimes := map[];
      startTime := now;
    }

    /**
     * `record_request`: the duration joins the global history and the
     * endpoint's list, each keeping its newest `maxHistory` entries; the
     * endpoint's request count goes up by one and its error count too when
     * the request failed.
     */
    method RecordRequest(endpoint: string, duration: real, success: bool)
      requires Valid()
      modifies this
      ensures Valid()
      ensures requestTimes == Push(old(requestTimes), duration, maxHistory)
      ensures requestCounts == old(requestCounts)[endpoint := Count(old(requestCounts), endpoint) + 1]
      ensures errorCounts == if success then old(errorCounts)
        else old(errorCounts)[endpoint := Count(old(errorCounts), endpoint) + 1]
      ensures endpointTimes == old(endpointTimes)[endpoint :=
        Newest((if endpoint in old(endpointTimes) then old(endpointTimes)[endpoint] else []) + [duration], maxHistory)]
      ensures startTime == old(startTime)
    {
      RecordConsistent(requestCounts, errorCounts, endpointTimes, maxHistory, endpoint, duration, success);
      var times := if endpoint in endpointTimes then endpointTimes[endpoint] else [];
      var counts := requestCounts[endpoint := Count(requestCounts, endpoint) + 1];
      var errors := if success then errorCounts else errorCounts[endpoint := Count(errorCounts, endpoint) + 1];
      var kept := endpointTimes[endpoint := Newest(times + [duration], maxHistory)];
      requestTimes, requestCounts, errorCounts, endpointTimes := Push(requestTimes, duration, maxHistory), counts, errors, kept;
    }

    /** `get_metrics` at time `now`: every figure of every endpoint with kept times. */
    function Metrics(now: real): (r: Snapshot)
      reads this
      requires Valid()
      ensures r.uptime == now - startTime
      ensures r.totalRequests == |requestTimes| <= maxHistory
      ensures forall e :: e in r.endpoints <==> e in endpointTimes && endpointTimes[e] != []
      ensures forall e :: e in r.endpoints ==>
        r.endpoints[e].errorCount <= r.endpoints[e].count && 0.0 <= r.endpoints[e].successRate <= 1.0
      ensures r.global == GlobalMetrics(requestTimes)
      ensures forall e :: e in r.endpoints ==>
        r.endpoints[e] == EndpointMetrics(Count(requestCounts, e), Count(errorCounts, e), endpointTimes[e])
    {
      Snapshot(now - startTime, |requestTimes|, GlobalMetrics(requestTimes),
        map e | e in endpointTimes && endpointTimes[e] != [] ::
          EndpointMetrics(Count(requestCounts, e), Count(errorCounts, e), endpointTimes[e]))
    }

    /** `reset`: every history and counter emptied and the uptime restarted. */
    method Reset(now: real)
      requires Valid()
      modifies this
      ensures Valid()
      ensures requestTimes == [] && requestCounts == map[] && errorCounts == map[] && endpointTimes == map[]
      ensures startTime == now
    {
      requestTimes := [];
      requestCounts := map[];
      errorCounts := map[];
      endpointTimes := map[];
      startTime := now;
    }
  }
}
