/** The alerter's check of internal/alert/alert.go. Times are nanoseconds; a Duration is 64 bits wide. */
module Alerters {
  import opened Bytes
  import opened Messages
  import opened Statistics

  const MAX_DURATION := 0x7FFF_FFFF_FFFF_FFFF
  const MIN_DURATION := -0x8000_0000_0000_0000

  type Duration = d: int | MIN_DURATION <= d <= MAX_DURATION

  /** time.Time.Sub, which saturates. */
  function Sub(t: int, u: int): Duration {
    var d := t - u;
    if d > MAX_DURATION then MAX_DURATION else if d < MIN_DURATION then MIN_DURATION else d
  }

  /** Saturation does not show in a comparison with a shorter duration. */
  lemma SubExceeds(t: int, u: int, w: Duration)
    ensures w < 0x7FFF_FFFF_FFFF_FFFF ==> (Sub(t, u) > w <==> t - u > w)
    ensures w == 0x7FFF_FFFF_FFFF_FFFF ==> Sub(t, u) <= w
  {
  }

  // ---------- what the window holds ----------

  predicate IsCall(m: Record, cutoff: int) { m.timestamp > cutoff && (m.msgType.Request? || m.msgType.Response?) }

  predicate IsFailure(m: Record, cutoff: int) { IsCall(m, cutoff) && (m.errorCode != [] || HasError(m.errorData)) }

  predicate IsTimed(m: Record, cutoff: int) { m.timestamp > cutoff && m.msgType.Response? && m.latencyMS > 0 }

  function Calls(ms: seq<Record>, cutoff: int): nat {
    if ms == [] then 0 else Calls(ms[..|ms| - 1], cutoff) + (if IsCall(ms[|ms| - 1], cutoff) then 1 else 0)
  }

  function Failures(ms: seq<Record>, cutoff: int): (n: nat)
    ensures n <= Calls(ms, cutoff)
  {
    if ms == [] then 0 else Failures(ms[..|ms| - 1], cutoff) + (if IsFailure(ms[|ms| - 1], cutoff) then 1 else 0)
  }

  function Timed(ms: seq<Record>, cutoff: int): nat {
    if ms == [] then 0 else Timed(ms[..|ms| - 1], cutoff) + (if IsTimed(ms[|ms| - 1], cutoff) then 1 else 0)
  }

  function TimeSum(ms: seq<Record>, cutoff: int): nat {
    if ms == [] then 0
    else TimeSum(ms[..|ms| - 1], cutoff) + (if IsTimed(ms[|ms| - 1], cutoff) then ms[|ms| - 1].latencyMS else 0)
  }

  lemma {:induction false} CountsAppend(xs: seq<Record>, ys: seq<Record>, cutoff: int)
    ensures Calls(xs + ys, cutoff) == Calls(xs, cutoff) + Calls(ys, cutoff)
    ensures Failures(xs + ys, cutoff) == Failures(xs, cutoff) + Failures(ys, cutoff)
    ensures Timed(xs + ys, cutoff) == Timed(xs, cutoff) + Timed(ys, cutoff)
    ensures TimeSum(xs + ys, cutoff) == TimeSum(xs, cutoff) + TimeSum(ys, cutoff)
    decreases |ys|
  {
    if ys == [] {
      assert xs + ys == xs;
    } else {
      var n := |ys| - 1;
      CountsAppend(xs, ys[..n], cutoff);
      assert (xs + ys)[..|xs + ys| - 1] == xs + ys[..n];
    }
  }

  /** What one message contributes, wherever it stands: nothing at or before the cutoff or when it is
      neither request nor response; otherwise one call, one failure if it has an error, and, for a
      response with a positive latency, that latency. */
  lemma {:induction false} OneMessage(xs: seq<Record>, m: Record, ys: seq<Record>, cutoff: int)
    ensures var inside := m.timestamp > cutoff && (m.msgType == Request || m.msgType == Response);
      var failed := m.errorCode != [] || (m.errorData != [] && m.errorData != [0x6E, 0x75, 0x6C, 0x6C]);
      var timed := inside && m.msgType == Response && m.latencyMS > 0;
      && Calls(xs + [m] + ys, cutoff) - Calls(xs + ys, cutoff) == (if inside then 1 else 0)
      && Failures(xs + [m] + ys, cutoff) - Failures(xs + ys, cutoff) == (if inside && failed then 1 else 0)
      && Timed(xs + [m] + ys, cutoff) - Timed(xs + ys, cutoff) == (if timed then 1 else 0)
      && TimeSum(xs + [m] + ys, cutoff) - TimeSum(xs + ys, cutoff) == (if timed then m.latencyMS else 0)
  {
    CountsAppend(xs + [m], ys, cutoff);
    CountsAppend(xs, [m], cutoff);
    CountsAppend(xs, ys, cutoff);
    assert [m][..0] == [];
  }

  // ---------- when to alert ----------

  datatype Limits = Limits(errorRate: real, latency: int, window: Duration)

  /** More than the allowed percentage of calls failed. */
  predicate TooManyErrors(l: Limits, failed: nat, calls: nat) {
    l.errorRate > 0.0 && 100.0 * failed as real > l.errorRate * calls as real
  }

  /** The timed responses took at least one whole millisecond more than allowed, on average. */
  predicate TooSlow(l: Limits, sum: nat, count: nat) {
    l.latency > 0 && count > 0 && sum >= (l.latency + 1) * count
  }

  predicate Breached(l: Limits, ms: seq<Record>, cutoff: int) {
    Calls(ms, cutoff) > 0
    && (TooManyErrors(l, Failures(ms, cutoff), Calls(ms, cutoff)) || TooSlow(l, TimeSum(ms, cutoff), Timed(ms, cutoff)))
  }

  lemma MeanAbove(sum: nat, count: nat, limit: int)
    requires count > 0
    ensures sum / count > limit <==> sum >= (limit + 1) * count
    ensures (sum / count) * count <= sum < (sum / count + 1) * count
  {
    var q := sum / count;
    assert q * count <= sum < q * count + count;
    if q > limit { assert q * count >= (limit + 1) * count; }
    else { assert (q + 1) * count <= (limit + 1) * count; }
  }

  lemma RateAbove(failed: nat, calls: nat, limit: real)
    requires calls > 0
    ensures (failed as real / calls as real) * 100.0 > limit <==> 100.0 * failed as real > limit * calls as real
    ensures (failed as real / calls as real) * 100.0 * calls as real == 100.0 * failed as real
    ensures failed <= calls ==> 0.0 <= (failed as real / calls as real) * 100.0 <= 100.0
  {
    var f, c := failed as real, calls as real;
    var r := f / c;
    assert r * c == f;
    RealScale(r * 100.0, limit, c);
    if failed <= calls {
      RealScale(r, 1.0, c);
    }
  }

  lemma RealScale(a: real, b: real, c: real)
    requires c > 0.0
    ensures a > b <==> a * c > b * c
  {
    if a > b { assert (a - b) * c > 0.0; }
    if a <= b { assert (b - a) * c >= 0.0; }
  }

  lemma ThresholdsMean(l: Limits, failed: nat, calls: nat, sum: nat, count: nat)
    requires calls > 0
    ensures TooManyErrors(l, failed, calls)
      <==> l.errorRate > 0.0 && (failed as real / calls as real) * 100.0 > l.errorRate
    ensures TooSlow(l, sum, count) <==> l.latency > 0 && count > 0 && sum / count > l.latency
  {
    RateAbove(failed, calls, l.errorRate);
    if count > 0 { MeanAbove(sum, count, l.latency); }
  }

  /** The thresholds without division are those on the percentage of failures and on the truncated mean,
      each only when it is set above zero; one of them is enough. */
  lemma BreachedMeans(l: Limits, ms: seq<Record>, cutoff: int)
    ensures Breached(l, ms, cutoff) <==>
      && Calls(ms, cutoff) > 0
      && ((l.errorRate > 0.0
           && (Failures(ms, cutoff) as real / Calls(ms, cutoff) as real) * 100.0 > l.errorRate)
          || (l.latency > 0 && Timed(ms, cutoff) > 0
              && TimeSum(ms, cutoff) / Timed(ms, cutoff) > l.latency))
  {
    if Calls(ms, cutoff) > 0 {
      ThresholdsMean(l, Failures(ms, cutoff), Calls(ms, cutoff), TimeSum(ms, cutoff), Timed(ms, cutoff));
    }
  }

  datatype Reason = ErrorRate | Latency

  datatype Alert = Silent | Alert(reason: Reason, errorRate: real, avgLatency: int)

  /** The percentage of failed calls, and the mean latency in whole milliseconds. */
  predicate Figures(errorRate: real, avgLatency: int, failed: nat, calls: nat, sum: nat, count: nat) {
    && 0.0 <= errorRate <= 100.0 && errorRate * calls as real == 100.0 * failed as real
    && (if count == 0 then avgLatency == 0 else avgLatency * count <= sum < (avgLatency + 1) * count)
  }

  // ---------- the implementation ----------

  class Alerter {
    const limits: Limits
    var lastAlerted: int

    constructor (limits: Limits, zeroTime: int)
      ensures this.limits == limits && lastAlerted == zeroTime
    {
      this.limits, lastAlerted := limits, zeroTime;
    }

    /** One check: the clock is read for the cutoff, for the rate limit, and after the webhook call.
        A failed query counts as an empty one. */
    method Check(messages: seq<Record>, began: int, asked: int, ended: int) returns (alert: Alert)
      modifies this
      ensures alert != Silent <==>
        Breached(limits, messages, began - limits.window) && Sub(asked, old(lastAlerted)) > limits.window
      ensures limits.window < 0x7FFF_FFFF_FFFF_FFFF ==>
        (alert != Silent <==>
           Breached(limits, messages, began - limits.window) && asked - old(lastAlerted) > limits.window)
      ensures lastAlerted == if alert == Silent then old(lastAlerted) else ended
      ensures var s := Step(limits, State(old(lastAlerted), []), CheckAt(messages, began, asked, ended));
        lastAlerted == s.lastAlerted && (alert != Silent <==> s.alerts == [(asked, ended)])
      ensures alert.Alert? ==>
        && (alert.reason == ErrorRate <==>
            TooManyErrors(limits, Failures(messages, began - limits.window), Calls(messages, began - limits.window)))
        && Figures(alert.errorRate, alert.avgLatency,
             Failures(messages, began - limits.window), Calls(messages, began - limits.window),
             TimeSum(messages, began - limits.window), Timed(messages, began - limits.window))
    {
      alert := Silent;
      SubExceeds(asked, lastAlerted, limits.window);
      if |messages| == 0 {
        return;
      }
      var cutoff := began - limits.window;
      var totalMsgs, errorMsgs, totalLatency, latencyCount := Tally(messages, cutoff);
      if totalMsgs == 0 {
        return;
      }
      var shouldAlert, reason, errorRate, avgLatency := Judge(totalMsgs, errorMsgs, totalLatency, latencyCount);
      if shouldAlert {
        if Sub(asked, lastAlerted) > limits.window {
          alert := Alert(reason, errorRate, avgLatency);
          lastAlerted := ended;
        }
      }
    }

    /** The thresholds, on what was counted. */
    method Judge(totalMsgs: nat, errorMsgs: nat, totalLatency: nat, latencyCount: nat)
      returns (shouldAlert: bool, reason: Reason, errorRate: real, avgLatency: int)
      requires errorMsgs <= totalMsgs && totalMsgs > 0
      ensures shouldAlert <==> TooManyErrors(limits, errorMsgs, totalMsgs) || TooSlow(limits, totalLatency, latencyCount)
      ensures reason == ErrorRate <==> TooManyErrors(limits, errorMsgs, totalMsgs)
      ensures Figures(errorRate, avgLatency, errorMsgs, totalMsgs, totalLatency, latencyCount)
    {
      errorRate := (errorMsgs as real / totalMsgs as real) * 100.0;
      RateAbove(errorMsgs, totalMsgs, limits.errorRate);
      avgLatency := 0;
      if latencyCount > 0 {
        avgLatency := totalLatency / latencyCount;
        MeanAbove(totalLatency, latencyCount, limits.latency);
      }
      shouldAlert, reason := false, Latency;
      if limits.errorRate > 0.0 && errorRate > limits.errorRate {
        shouldAlert, reason := true, ErrorRate;
      }
      if !shouldAlert && limits.latency > 0 && avgLatency > limits.latency {
        shouldAlert, reason := true, Latency;
      }
    }

    /** The counting loop of the check. */
    method Tally(messages: seq<Record>, cutoff: int)
      returns (totalMsgs: nat, errorMsgs: nat, totalLatency: nat, latencyCount: nat)
      ensures totalMsgs == Calls(messages, cutoff) && errorMsgs == Failures(messages, cutoff)
      ensures latencyCount == Timed(messages, cutoff) && totalLatency == TimeSum(messages, cutoff)
    {
      totalMsgs, errorMsgs, totalLatency, latencyCount := 0, 0, 0, 0;
      for i := 0 to |messages|
        invariant totalMsgs == Calls(messages[..i], cutoff) && errorMsgs == Failures(messages[..i], cutoff)
        invariant latencyCount == Timed(messages[..i], cutoff) && totalLatency == TimeSum(messages[..i], cutoff)
      {
        var m := messages[i];
        assert messages[..i + 1][..i] == messages[..i];
        if m.timestamp > cutoff {
          if m.msgType == Request || m.msgType == Response {
            totalMsgs := totalMsgs + 1;
            if m.errorCode != [] || (m.errorData != [] && m.errorData != NULL) {
              errorMsgs := errorMsgs + 1;
            }
          }
          if m.msgType == Response && m.latencyMS > 0 {
            totalLatency := totalLatency + m.latencyMS;
            latencyCount := latencyCount + 1;
          }
        }
      }
      assert messages[..|messages|] == messages;
    }
  }

  // ---------- the rate limit over a run ----------

  datatype CheckAt = CheckAt(messages: seq<Record>, began: int, asked: int, ended: int)

  /** The time of the last alert, and the alerts so far as (start, end). */
  datatype State = State(lastAlerted: int, alerts: seq<(int, int)>)

  function Step(l: Limits, s: State, c: CheckAt): State {
    if Breached(l, c.messages, c.began - l.window) && Sub(c.asked, s.lastAlerted) > l.window
    then State(c.ended, s.alerts + [(c.asked, c.ended)]) else s
  }

  function Run(l: Limits, zeroTime: int, cs: seq<CheckAt>): State {
    if cs == [] then State(zeroTime, []) else Step(l, Run(l, zeroTime, cs[..|cs| - 1]), cs[|cs| - 1])
  }

  /** The clock never goes back. */
  predicate Nondecreasing(cs: seq<CheckAt>) {
    (forall i :: 0 <= i < |cs| ==> cs[i].began <= cs[i].asked <= cs[i].ended)
    && forall i, j :: 0 <= i < j < |cs| ==> cs[i].ended <= cs[j].began
  }

  /** Each alert starts more than a window after the one before has ended. */
  ghost predicate Spaced(l: Limits, alerts: seq<(int, int)>) {
    (forall i :: 0 <= i < |alerts| ==> alerts[i].0 <= alerts[i].1)
    && forall i :: 0 < i < |alerts| ==> alerts[i].0 - alerts[i - 1].1 > l.window
  }

  lemma {:induction false} AlertsAreSpaced(l: Limits, zeroTime: int, cs: seq<CheckAt>)
    requires Nondecreasing(cs)
    ensures var s := Run(l, zeroTime, cs);
      Spaced(l, s.alerts) && s.lastAlerted == if s.alerts == [] then zeroTime else s.alerts[|s.alerts| - 1].1
    decreases |cs|
  {
    if cs != [] {
      AlertsAreSpaced(l, zeroTime, cs[..|cs| - 1]);
    }
  }

  lemma {:induction false} SpacingAddsUp(l: Limits, alerts: seq<(int, int)>, i: nat, j: nat)
    requires Spaced(l, alerts) && i <= j < |alerts|
    ensures alerts[j].0 - alerts[i].0 >= (j - i) * l.window
    decreases j
  {
    if i < j {
      SpacingAddsUp(l, alerts, i, j - 1);
      assert (j - i) * l.window == (j - 1 - i) * l.window + l.window;
    }
  }

  /** An interval of length `length` sees at most floor(length / window) + 1 alerts start. */
  lemma AtMost(l: Limits, zeroTime: int, cs: seq<CheckAt>, from: int, length: nat, i: nat, j: nat)
    requires Nondecreasing(cs) && l.window > 0
    requires i <= j < |Run(l, zeroTime, cs).alerts|
    requires from <= Run(l, zeroTime, cs).alerts[i].0 && Run(l, zeroTime, cs).alerts[j].0 <= from + length
    ensures j - i + 1 <= length / l.window + 1
  {
    AlertsAreSpaced(l, zeroTime, cs);
    SpacingAddsUp(l, Run(l, zeroTime, cs).alerts, i, j);
    AtMostQuotient(j - i, l.window, length);
  }

  lemma AtMostQuotient(n: nat, w: int, length: nat)
    requires w > 0 && n * w <= length
    ensures n <= length / w
  {
    MulOrder(length / w + 1, n, w);
  }

  lemma MulOrder(a: int, b: int, w: int)
    requires w >= 0
    ensures a <= b ==> a * w <= b * w
  {
    if a <= b { assert (b - a) * w >= 0; }
  }
}
