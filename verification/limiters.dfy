/** Which limiter a configuration gets, and at which rate (limiter/limiter.go). */
module Limiters {
  import opened Tickets

  datatype Limiter =
    | Strict(rps: real)
    | TokenBucket(rps: real, burst: int)
    | SlidingWindow(rps: real, windowSeconds: int)

  function ToRps(rate: real, rateUnit: string): real {
    if rateUnit == "rpm" then rate / 60.0 else rate
  }

  function Max(a: real, b: real): real {
    if a < b then b else a
  }

  /** Latency compensation shortens the interval between releases. */
  function Compensated(rps: real, compensationMs: real): real
    requires rps > 0.0
  {
    if compensationMs > 0.0 then 1.0 / Max(0.001, 1.0 / rps - compensationMs / 1000.0) else rps
  }

  function New(algorithm: string, rate: real, rateUnit: string, burst: int, windowSeconds: int,
               compensationMs: real): Option<Limiter> {
    var rps := ToRps(rate, rateUnit);
    if rps <= 0.0 then None else
      var effective := Compensated(rps, compensationMs);
      if algorithm == "strict" then Some(Strict(effective))
      else if algorithm == "token_bucket" then Some(TokenBucket(effective, if burst <= 0 then 1 else burst))
      else if algorithm == "sliding_window" then
        Some(SlidingWindow(effective, if windowSeconds <= 0 then 1 else windowSeconds))
      else None
  }

  /** A limiter exists exactly for a positive rate and a known algorithm, and then
      its rate, burst and window are positive. */
  lemma NewAccepts(algorithm: string, rate: real, rateUnit: string, burst: int, windowSeconds: int,
                   compensationMs: real)
    ensures var l := New(algorithm, rate, rateUnit, burst, windowSeconds, compensationMs);
            && (l.Some? <==> rate > 0.0 && algorithm in {"strict", "token_bucket", "sliding_window"})
            && (l.Some? ==> l.value.rps > 0.0)
            && (l.Some? && l.value.TokenBucket? ==> l.value.burst >= 1)
            && (l.Some? && l.value.SlidingWindow? ==> l.value.windowSeconds >= 1)
  {
  }

  /** A rate per minute is divided among sixty seconds, a rate per second is taken as
      it is; a burst or window that is not positive counts as one. */
  lemma RateIsConverted(algorithm: string, rate: real, rateUnit: string, burst: int, windowSeconds: int)
    requires rate > 0.0
    ensures var perSecond := ToRps(rate, rateUnit);
            && perSecond * (if rateUnit == "rpm" then 60.0 else 1.0) == rate
            && New("strict", rate, rateUnit, burst, windowSeconds, 0.0) == Some(Strict(perSecond))
            && New("token_bucket", rate, rateUnit, burst, windowSeconds, 0.0)
                 == Some(TokenBucket(perSecond, if burst >= 1 then burst else 1))
            && New("sliding_window", rate, rateUnit, burst, windowSeconds, 0.0)
                 == Some(SlidingWindow(perSecond, if windowSeconds >= 1 then windowSeconds else 1))
  {
  }

  /** With compensation the interval between releases is shorter by that many
      milliseconds, but not below one millisecond. */
  lemma CompensationShortensInterval(algorithm: string, rate: real, rateUnit: string, burst: int, windowSeconds: int,
                                     compensationMs: real)
    requires rate > 0.0 && algorithm in {"strict", "token_bucket", "sliding_window"}
    ensures var plain := New(algorithm, rate, rateUnit, burst, windowSeconds, 0.0);
            var early := New(algorithm, rate, rateUnit, burst, windowSeconds, compensationMs);
            && plain.Some? && early.Some? && plain.value.rps > 0.0 && early.value.rps > 0.0
            && (compensationMs <= 0.0 ==> early == plain)
            && (compensationMs > 0.0 ==>
                  var cut := 1.0 / plain.value.rps - compensationMs / 1000.0;
                  early.value.rps * (if cut >= 0.001 then cut else 0.001) == 1.0)
  {
  }

  /** Compensation is meant to release early. It does so exactly for rates up to
      1000 per second: above that the floor of one millisecond slows the endpoint
      down to 1000 per second. */
  lemma CompensationReleasesEarly(rps: real, compensationMs: real)
    requires rps > 0.0 && compensationMs > 0.0
    ensures Compensated(rps, compensationMs) >= rps <==> rps <= 1000.0
    ensures rps >= 1000.0 ==> Compensated(rps, compensationMs) == 1000.0
  {
  }
}
