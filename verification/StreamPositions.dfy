/** The frame arithmetic of an output stream: delays, reported positions and the fallback latency. */
module StreamPositions {

  const MINIMUM_DELAY_MS: int := 50
  const MAXIMUM_DELAY_MS: int := 1000
  const EXTRA_AUDIO_SYNC_MS: int := 200

  /** What the stack reports: whether it answered, the headset's delay, and the bytes it has sent. */
  datatype Report = Report(ok: bool, delayNs: nat, absorbedBytes: nat)

  function FrameCount(intervalUs: nat, sampleRate: nat): nat {
    intervalUs * sampleRate / 1000000
  }

  /** The legacy delay, used when the stack's report is missing or out of range. */
  function FallbackDelayMs(framesCount: nat, sampleRate: nat): nat
    requires sampleRate > 0
  {
    framesCount * 1000 / sampleRate + EXTRA_AUDIO_SYNC_MS
  }

  function DelayMs(report: Report, framesCount: nat, sampleRate: nat): (ms: nat)
    requires sampleRate > 0
    ensures MINIMUM_DELAY_MS < ms < MAXIMUM_DELAY_MS || ms == FallbackDelayMs(framesCount, sampleRate)
  {
    var reported := report.delayNs / 1000000;
    if report.ok && MINIMUM_DELAY_MS < reported < MAXIMUM_DELAY_MS then reported
    else FallbackDelayMs(framesCount, sampleRate)
  }

  function LatencyFrames(delayMs: nat, sampleRate: nat): nat {
    delayMs * sampleRate / 1000
  }

  function AtLeastZero(x: int): nat {
    if x < 0 then 0 else x
  }

  lemma {:induction false} Quotient(a: nat, b: nat) returns (q: nat)
    requires b > 0
    ensures q == a / b && q * b <= a < q * b + b
  {
    q := a / b;
    assert a == q * b + a % b;
  }

  lemma {:induction false} MulMonotone(a: int, b: int, c: nat)
    requires a <= b
    ensures a * c <= b * c
  {
    assert (b - a) * c >= 0;
  }

  lemma {:induction false} NextMultiple(q: int, c: int)
    ensures (q + 1) * c == q * c + c
  {
  }

  // ------------------------------------------------------------------------
  // What the numbers mean
  // ------------------------------------------------------------------------

  /** The whole frames of an interval. */
  predicate IsFrameCount(intervalUs: nat, sampleRate: nat, frames: nat) {
    frames * 1000000 <= intervalUs * sampleRate < (frames + 1) * 1000000
  }

  /** The stack's delay when it answered and the delay lies between 50 ms and a second; otherwise 200 ms on
      top of the time in which the counted frames are played. */
  predicate IsDelay(report: Report, framesCount: nat, sampleRate: nat, ms: nat) {
    var reported := report.delayNs / 1000000;
    if report.ok && 50 < reported < 1000 then ms == reported
    else ms >= 200 && (ms - 200) * sampleRate <= framesCount * 1000 < (ms - 199) * sampleRate
  }

  /** The whole frames that are played in a number of milliseconds. */
  predicate IsLatency(ms: nat, sampleRate: nat, frames: nat) {
    frames * 1000 <= ms * sampleRate < (frames + 1) * 1000
  }

  lemma {:induction false} QuotientIs(a: nat, b: nat, q: nat)
    requires b > 0
    ensures q == a / b <==> q * b <= a < (q + 1) * b
  {
    var x := Quotient(a, b);
    NextMultiple(q, b);
    NextMultiple(x, b);
    if q < x {
      MulMonotone(q + 1, x, b);
    }
    if x < q {
      MulMonotone(x + 1, q, b);
    }
  }

  lemma {:induction false} FrameCountIs(intervalUs: nat, sampleRate: nat, frames: nat)
    ensures frames == FrameCount(intervalUs, sampleRate) <==> IsFrameCount(intervalUs, sampleRate, frames)
  {
    QuotientIs(intervalUs * sampleRate, 1000000, frames);
  }

  lemma {:induction false} DelayIs(report: Report, framesCount: nat, sampleRate: nat, ms: nat)
    requires sampleRate > 0
    ensures ms == DelayMs(report, framesCount, sampleRate) <==> IsDelay(report, framesCount, sampleRate, ms)
  {
    if ms >= 200 {
      QuotientIs(framesCount * 1000, sampleRate, ms - 200);
    }
  }

  lemma {:induction false} LatencyIs(ms: nat, sampleRate: nat, frames: nat)
    ensures frames == LatencyFrames(ms, sampleRate) <==> IsLatency(ms, sampleRate, frames)
  {
    QuotientIs(ms * sampleRate, 1000, frames);
  }

  /** There is one such delay and one such latency; a modulus cuts the delay to a width, 0 does not. */
  lemma {:induction false} LatencyOf(report: Report, framesCount: nat, sampleRate: nat, modulus: nat)
    requires sampleRate > 0
    ensures forall m: nat ::
      IsDelay(report, framesCount, sampleRate, m) <==> m == DelayMs(report, framesCount, sampleRate)
    ensures var d := DelayMs(report, framesCount, sampleRate);
      var ms := if modulus == 0 then d else d % modulus;
      forall l: nat :: IsLatency(ms, sampleRate, l) <==> l == LatencyFrames(ms, sampleRate)
  {
    var d := DelayMs(report, framesCount, sampleRate);
    var ms := if modulus == 0 then d else d % modulus;
    forall m: nat
      ensures IsDelay(report, framesCount, sampleRate, m) <==> m == d
    {
      DelayIs(report, framesCount, sampleRate, m);
    }
    forall l: nat
      ensures IsLatency(ms, sampleRate, l) <==> l == LatencyFrames(ms, sampleRate)
    {
      LatencyIs(ms, sampleRate, l);
    }
  }

  lemma {:induction false} ScaledLower(q: nat, rate: nat, bound: nat)
    requires rate > 0 && q * rate <= bound * rate
    ensures q <= bound
  {
    NextMultiple(bound, rate);
    if q > bound {
      MulMonotone(bound + 1, q, rate);
      assert false;
    }
  }

  /** A frame count made at the same rate never stands for more than its interval. */
  lemma {:induction false} FallbackUpper(intervalUs: nat, rate: nat)
    requires rate > 0
    ensures FallbackDelayMs(FrameCount(intervalUs, rate), rate) <= intervalUs / 1000 + EXTRA_AUDIO_SYNC_MS
  {
    var frames := Quotient(intervalUs * rate, 1000000);
    var ms := Quotient(frames * 1000, rate);
    assert (ms * 1000) * rate == (ms * rate) * 1000;
    ScaledLower(ms * 1000, rate, intervalUs);
  }

  /** At a thousand frames a second or more it loses less than two milliseconds of it. */
  lemma {:induction false} FallbackLower(intervalUs: nat, rate: nat)
    requires rate >= 1000
    ensures FallbackDelayMs(FrameCount(intervalUs, rate), rate) + 1 >= intervalUs / 1000 + EXTRA_AUDIO_SYNC_MS
  {
    var frames := Quotient(intervalUs * rate, 1000000);
    var ms := Quotient(frames * 1000, rate);
    assert (ms * 1000 + 2000) * rate == (ms * rate + rate) * 1000 + 1000 * rate;
    ScaledLower(intervalUs, rate, ms * 1000 + 2000);
  }

  lemma {:induction false} QuotientMonotone(a: nat, b: nat, p: nat, q: nat)
    requires a <= b && 0 < q <= p
    ensures a / p <= b / q
  {
    var x := Quotient(a, p);
    var y := Quotient(b, q);
    if x > y {
      NextMultiple(y, q);
      MulMonotone(y + 1, x, q);
      MulMonotone(q, p, x);
      assert false;
    }
  }

  /** A faster rate than the frames were counted at makes the latency no longer. */
  lemma {:induction false} FallbackFaster(intervalUs: nat, openRate: nat, rate: nat)
    requires 0 < openRate <= rate
    ensures FallbackDelayMs(FrameCount(intervalUs, openRate), rate) <= intervalUs / 1000 + EXTRA_AUDIO_SYNC_MS
  {
    FallbackUpper(intervalUs, openRate);
    var scaled := FrameCount(intervalUs, openRate) * 1000;
    QuotientMonotone(scaled, scaled, rate, openRate);
  }

  lemma {:induction false} MultipleDivides(q: nat, b: nat)
    requires b > 0
    ensures (q * b) / b == q
  {
    var x := Quotient(q * b, b);
    NextMultiple(x, b);
    if x < q {
      MulMonotone(x + 1, q, b);
      assert false;
    }
    if x > q {
      NextMultiple(q, b);
      MulMonotone(q + 1, x, b);
      assert false;
    }
  }

  /** After a switch to a slower rate some interval counts for too long: one of as many seconds as the
      slower rate has frames in a second. */
  lemma {:induction false} FallbackSlower(openRate: nat, rate: nat)
    requires 0 < rate < openRate
    ensures var us := rate * 1000000;
      FallbackDelayMs(FrameCount(us, openRate), rate) > us / 1000 + EXTRA_AUDIO_SYNC_MS
  {
    var us := rate * 1000000;
    assert us * openRate == (rate * openRate) * 1000000;
    MultipleDivides(rate * openRate, 1000000);
    assert FrameCount(us, openRate) * 1000 == (openRate * 1000) * rate;
    MultipleDivides(openRate * 1000, rate);
    assert us == (rate * 1000) * 1000;
    MultipleDivides(rate * 1000, 1000);
  }

  /** For a stream opened at one rate and running at another, the fallback latency stays within the data
      interval and 200 ms, whatever the interval, exactly when the running rate is not the slower one. */
  lemma {:induction false} FallbackBoundIff(openRate: nat, rate: nat)
    requires openRate > 0 && rate > 0
    ensures (forall us: nat :: FallbackDelayMs(FrameCount(us, openRate), rate) <= us / 1000 + EXTRA_AUDIO_SYNC_MS)
       <==> openRate <= rate
  {
    if openRate <= rate {
      forall us: nat
        ensures FallbackDelayMs(FrameCount(us, openRate), rate) <= us / 1000 + EXTRA_AUDIO_SYNC_MS
      {
        FallbackFaster(us, openRate, rate);
      }
    } else {
      FallbackSlower(openRate, rate);
    }
  }

  /** out_calculate_feeding_delay_ms, the position it reports: the stack's count is believed only when
      it lies within the latency below the frames presented. No subtraction goes below zero. */
  method FeedingPosition(report: Report, framesPresented: nat, framesCount: nat, sampleRate: nat, frameSize: nat)
    returns (frames: nat)
    requires sampleRate > 0 && frameSize > 0
    ensures var latency := LatencyFrames(DelayMs(report, framesCount, sampleRate), sampleRate);
      && AtLeastZero(framesPresented - 2 * latency) <= frames <= AtLeastZero(framesPresented - latency)
      && (var sent := report.absorbedBytes / frameSize;
          frames == AtLeastZero((if sent <= framesPresented <= sent + latency then sent else framesPresented)
                                - latency))
    ensures forall ms: nat, latency: nat ::
      IsDelay(report, framesCount, sampleRate, ms) && IsLatency(ms, sampleRate, latency) ==>
        var sent := report.absorbedBytes / frameSize;
        var reached := if sent <= framesPresented <= sent + latency then sent else framesPresented;
        frames == if reached > latency then reached - latency else 0
  {
    LatencyOf(report, framesCount, sampleRate, 0);
    var delayMs: nat := 0;
    var fetched := false;
    if report.ok {
      delayMs := report.delayNs / 1000000;
      if delayMs > MINIMUM_DELAY_MS && delayMs < MAXIMUM_DELAY_MS {
        fetched := true;
      }
    }
    if !fetched {
      delayMs := FallbackDelayMs(framesCount, sampleRate);
    }
    var latency := LatencyFrames(delayMs, sampleRate);
    frames := report.absorbedBytes / frameSize;
    if framesPresented < frames {
      frames := framesPresented;
    } else if framesPresented - frames > latency {
      frames := framesPresented;
    }
    if frames > latency {
      frames := frames - latency;
    } else {
      frames := 0;
    }
  }

  /** The latency in frames that out_get_render_position takes off; it gets it in 32-bit milliseconds. */
  function RenderLatency(report: Report, framesCount: nat, sampleRate: nat): nat
    requires sampleRate > 0
  {
    LatencyFrames(DelayMs(report, framesCount, sampleRate) % 0x1_0000_0000, sampleRate)
  }

  /** out_get_render_position: never more than was rendered; the exact difference, or zero, while that
      fits 32 bits, and the same number modulo 2^32 when it does not. */
  method RenderPosition(report: Report, framesRendered: nat, framesCount: nat, sampleRate: nat) returns (dspFrames: nat)
    requires sampleRate > 0
    ensures dspFrames <= framesRendered && dspFrames < 0x1_0000_0000
    ensures framesRendered < 0x1_0000_0000 ==>
      dspFrames == AtLeastZero(framesRendered - RenderLatency(report, framesCount, sampleRate))
    ensures (AtLeastZero(framesRendered - RenderLatency(report, framesCount, sampleRate)) - dspFrames)
      % 0x1_0000_0000 == 0
    ensures forall ms: nat, latency: nat ::
      IsDelay(report, framesCount, sampleRate, ms) && IsLatency(ms % 0x1_0000_0000, sampleRate, latency) ==>
        dspFrames == if framesRendered > latency then (framesRendered - latency) % 0x1_0000_0000 else 0
  {
    LatencyOf(report, framesCount, sampleRate, 0x1_0000_0000);
    var latencyMs := DelayMs(report, framesCount, sampleRate) % 0x1_0000_0000;
    var latencyFrames := LatencyFrames(latencyMs, sampleRate);
    if framesRendered >= latencyFrames {
      dspFrames := (framesRendered - latencyFrames) % 0x1_0000_0000;
    } else {
      dspFrames := 0;
    }
  }
}
