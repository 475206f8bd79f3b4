/**
 * The token-bucket rate limiter: one bucket per client, holding a token count
 * and the time it was last updated. Buckets refill at
 * `requests_per_minute / 60` tokens a second, up to the burst size.
 *
 * Tokens and times are exact reals; the clock is the `now` parameter.
 */
module RateLimiter {
  import opened Wrappers
  import Text

  datatype Bucket = Bucket(tokens: real, lastUpdate: real)

  /**
   * The client key: the first X-Forwarded-For entry, stripped; else the
   * peer's host; else "unknown".
   */
  function ClientId(forwardedFor: Option<string>, peerHost: Option<string>): (r: string)
    ensures forwardedFor.Some? && forwardedFor.value != [] ==>
      exists k :: Text.FirstField(forwardedFor.value, ',', k) && r == Text.Strip(forwardedFor.value[..k])
    ensures (forwardedFor.None? || forwardedFor.value == []) ==>
      r == (if peerHost.Some? then peerHost.value else "unknown")
  {
    if forwardedFor.Some? && forwardedFor.value != [] then Text.Strip(Text.FirstPiece(forwardedFor.value, ','))
    else if peerHost.Some? then peerHost.value
    else "unknown"
  }

  /** The bucket's tokens after refilling from its last update until `now`, capped at `burst`. */
  function Refill(b: Bucket, now: real, burst: real, tps: real): real
  {
    if burst < Grown(b, now, tps) then burst else Grown(b, now, tps)
  }

  /** The bucket's tokens plus what the rate supplied since its last update, before the cap. */
  function Grown(b: Bucket, now: real, tps: real): real
  {
    b.tokens + (now - b.lastUpdate) * tps
  }

  /**
   * `is_allowed` for one client: a new client gets a full bucket and is let
   * through without spending a token; a known client is let through exactly
   * when the refilled bucket holds at least one token, which it then spends.
   * Either way the bucket is stamped with `now`.
   */
  function Admit(b: Option<Bucket>, now: real, burst: real, tps: real): (r: (bool, Bucket))
    ensures b.None? ==> r == (true, Bucket(burst, now))
    ensures b.Some? ==> r.0 == (Refill(b.value, now, burst, tps) >= 1.0)
    ensures b.Some? ==> r.1 == Bucket(Refill(b.value, now, burst, tps) - (if r.0 then 1.0 else 0.0), now)
  {
    if b.None? then (true, Bucket(burst, now))
    else
      var tokens := Refill(b.value, now, burst, tps);
      if tokens >= 1.0 then (true, Bucket(tokens - 1.0, now)) else (false, Bucket(tokens, now))
  }

  /** Every bucket holds between 0 and `burst` tokens and was last updated no later than `clock`. */
  ghost predicate InRange(buckets: map<string, Bucket>, burst: real, clock: real)
  {
    forall c :: c in buckets ==> 0.0 <= buckets[c].tokens <= burst && buckets[c].lastUpdate <= clock
  }

  /**
   * With a clock that does not run backwards, a non-negative rate and burst
   * size, a request keeps every bucket within [0, burst].
   */
  lemma AdmitKeepsRange(buckets: map<string, Bucket>, client: string, clock: real, now: real, burst: real, tps: real)
    requires InRange(buckets, burst, clock) && clock <= now
    requires 0.0 <= burst && 0.0 <= tps
    ensures var b := if client in buckets then Some(buckets[client]) else None;
      InRange(buckets[client := Admit(b, now, burst, tps).1], burst, now)
  {
    var b := if client in buckets then Some(buckets[client]) else None;
    var r := Admit(b, now, burst, tps).1;
    if client in buckets {
      assert 0.0 <= b.value.tokens && b.value.lastUpdate <= now;
      AdmitSpends(b.value, now, burst, tps);
    }
    assert 0.0 <= r.tokens <= burst && r.lastUpdate == now;
  }

  /** The stale buckets `cleanup_old_buckets` removes. */
  function Stale(buckets: map<string, Bucket>, now: real, maxAge: real): set<string>
  {
    set c | c in buckets && now - buckets[c].lastUpdate > maxAge
  }

  /** Cleanup keeps the range invariant: it only removes buckets. */
  lemma CleanupKeepsRange(buckets: map<string, Bucket>, now: real, maxAge: real, burst: real, clock: real)
    requires InRange(buckets, burst, clock)
    ensures InRange(buckets - Stale(buckets, now, maxAge), burst, clock)
  {
  }

  /** One request spends at most the tokens refilled for it, and never drives the bucket negative. */
  lemma AdmitSpends(b: Bucket, now: real, burst: real, tps: real)
    requires 0.0 <= b.tokens && b.lastUpdate <= now && 0.0 <= burst && 0.0 <= tps
    ensures b.tokens <= Grown(b, now, tps)
    ensures 0.0 <= Refill(b, now, burst, tps) <= Grown(b, now, tps)
    ensures var r := Admit(Some(b), now, burst, tps);
      && 0.0 <= r.1.tokens && r.1.lastUpdate == now
      && r.1.tokens + (if r.0 then 1.0 else 0.0) <= Grown(b, now, tps)
  {
    MulNonNeg(now - b.lastUpdate, tps);
    assert (now - b.lastUpdate) * tps >= 0.0;
    assert Grown(b, now, tps) == b.tokens + (now - b.lastUpdate) * tps;
    assert Grown(b, now, tps) >= b.tokens;
  }

  lemma MulNonNeg(x: real, y: real)
    requires 0.0 <= x && 0.0 <= y
    ensures 0.0 <= x * y
  {
  }

  /** Refill over two consecutive stretches is refill over the whole. */
  lemma Elapsed(a: real, b: real, c: real, tps: real)
    ensures (c - b) * tps + (b - a) * tps == (c - a) * tps
  {
  }

  /** Dividing by a zero refill rate, as `get_retry_after` does when `requests_per_minute` is 0. */
  datatype RateError = DivisionByZero

  /**
   * `get_retry_after` for one client's bucket: 0 when the client is unknown
   * or would be let through now, otherwise the time until one token has
   * refilled.
   */
  function RetryAfter(b: Option<Bucket>, now: real, burst: real, tps: real): (r: Result<real, RateError>)
    ensures b.None? ==> r == Ok(0.0)
    ensures b.Some? && Refill(b.value, now, burst, tps) >= 1.0 ==> r == Ok(0.0)
    ensures r.Err? <==> b.Some? && Refill(b.value, now, burst, tps) < 1.0 && tps == 0.0
    ensures b.Some? && Refill(b.value, now, burst, tps) < 1.0 && r.Ok? ==>
              r.value * tps == 1.0 - Refill(b.value, now, burst, tps) && (tps > 0.0 ==> r.value > 0.0)
  {
    if b.None? then Ok(0.0)
    else
      var tokens := Refill(b.value, now, burst, tps);
      if tokens >= 1.0 then Ok(0.0)
      else if tps == 0.0 then Err(DivisionByZero)
      else
        var w := (1.0 - tokens) / tps;
        assert w * tps == 1.0 - tokens;
        Ok(w)
  }

  /**
   * The retry-after time is exact: with a burst of at least one token, a
   * request after waiting that long is let through, and one sent any
   * earlier is refused.
   */
  lemma RetryAfterExact(b: Bucket, now: real, burst: real, tps: real, wait: real)
    requires b.lastUpdate <= now && 1.0 <= burst && 0.0 < tps
    requires RetryAfter(Some(b), now, burst, tps).Ok?
    requires 0.0 <= wait
    ensures var w := RetryAfter(Some(b), now, burst, tps).value;
      Admit(Some(b), now + wait, burst, tps).0 <==> wait >= w
  {
    var w := RetryAfter(Some(b), now, burst, tps).value;
    var grownNow := Grown(b, now, tps);
    var grownLater := Grown(b, now + wait, tps);
    assert grownLater == grownNow + wait * tps by {
      Elapsed(b.lastUpdate, now, now + wait, tps);
    }
    assert Admit(Some(b), now + wait, burst, tps).0 <==> grownLater >= 1.0;
    if Refill(b, now, burst, tps) < 1.0 {
      assert grownNow < 1.0;
      assert w * tps == 1.0 - grownNow;
      ScaleOrder(wait, w, tps);
    } else {
      assert grownNow >= 1.0 && w == 0.0;
      MulNonNeg(wait, tps);
    }
  }

  /** Scaling by a positive rate keeps the order of two durations. */
  lemma ScaleOrder(x: real, y: real, k: real)
    requires 0.0 < k
    ensures x * k >= y * k <==> x >= y
  {
    if x >= y {
      MulNonNeg(x - y, k);
      assert x * k - y * k == (x - y) * k;
    } else {
      MulPositive(y - x, k);
      assert y * k - x * k == (y - x) * k;
    }
  }

  lemma MulPositive(x: real, y: real)
    requires 0.0 < x && 0.0 < y
    ensures 0.0 < x * y
  {
  }

  class Limiter {
    const requestsPerMinute: int
    const tokensPerSecond: real
    const burstSize: real
    var buckets: map<string, Bucket>

    /** `burst_size or requests_per_minute`: a missing or zero burst size falls back to the per-minute rate. */
    constructor (requestsPerMinute: int, burstSize: Option<int>)
      ensures this.requestsPerMinute == requestsPerMinute
      ensures tokensPerSecond == requestsPerMinute as real / 60.0
      ensures this.burstSize == (if burstSize.Some? && burstSize.value != 0 then burstSize.value else requestsPerMinute) as real
      ensures buckets == map[]
    {
      this.requestsPerMinute := requestsPerMinute;
      tokensPerSecond := requestsPerMinute as real / 60.0;
      this.burstSize := (if burstSize.Some? && burstSize.value != 0 then burstSize.value else requestsPerMinute) as real;
      buckets := map[];
    }

    /** `is_allowed` for a request with the given headers and peer. */
    method IsAllowed(forwardedFor: Option<string>, peerHost: Option<string>, now: real) returns (allowed: bool)
      modifies this`buckets
      ensures var c := ClientId(forwardedFor, peerHost);
        var b := if c in old(buckets) then Some(old(buckets)[c]) else None;
        && allowed == Admit(b, now, burstSize, tokensPerSecond).0
        && buckets == old(buckets)[c := Admit(b, now, burstSize, tokensPerSecond).1]
    {
      var c := ClientId(forwardedFor, peerHost);
      if c !in buckets {
        buckets := buckets[c := Bucket(burstSize, now)];
        return true;
      }
      var tokens := Refill(buckets[c], now, burstSize, tokensPerSecond);
      if tokens >= 1.0 {
        buckets := buckets[c := Bucket(tokens - 1.0, now)];
        return true;
      } else {
        buckets := buckets[c := Bucket(tokens, now)];
        return false;
      }
    }

    /** `get_retry_after`: reads the client's bucket and changes nothing. */
    function GetRetryAfter(forwardedFor: Option<string>, peerHost: Option<string>, now: real): (r: Result<real, RateError>)
      reads this
      ensures var c := ClientId(forwardedFor, peerHost);
        r == RetryAfter(if c in buckets then Some(buckets[c]) else None, now, burstSize, tokensPerSecond)
    {
      var c := ClientId(forwardedFor, peerHost);
      RetryAfter(if c in buckets then Some(buckets[c]) else None, now, burstSize, tokensPerSecond)
    }

    /** `cleanup_old_buckets`: drops exactly the buckets idle for more than `maxAge` seconds. */
    method CleanupOldBuckets(maxAge: real, now: real)
      modifies this`buckets
      ensures buckets == old(buckets) - Stale(old(buckets), now, maxAge)
    {
      var toRemove := Stale(buckets, now, maxAge);
      ghost var stale := toRemove;
      while toRemove != {}
        invariant toRemove <= stale
        invariant buckets == old(buckets) - (stale - toRemove)
        decreases |toRemove|
      {
        var c :| c in toRemove;
        buckets := buckets - {c};
        toRemove := toRemove - {c};
      }
    }
  }
}
