/** The output stream over its port: standby, pause, resume, parameters, writes and positions. */
module OutStream {
  import opened Collections
  import opened PortMachine
  import opened DevicePort
  import opened StreamPositions

  const EIO: int := 5
  const EBUSY: int := 16
  const EINVAL: int := 22

  const DEFAULT_BUFFER_MS: nat := 10
  const SPATIALIZER_BUFFER_MS: nat := 10

  class BluetoothStreamOut {
    const port: BluetoothAudioPort
    const dataIntervalUs: nat
    const framesCount: nat
    var sampleRate: nat
    var frameSize: nat
    var framesRendered: nat
    var framesPresented: nat
    ghost const openRate: nat
    /** What this thread's calls to resume returned, and what it offered the data path with what was taken. */
    ghost var resumes: seq<int>
    ghost var offers: seq<(nat, nat)>

    ghost predicate Valid()
      reads this, port
    {
      && port.Valid() && sampleRate > 0 && frameSize > 0 && openRate > 0
      && framesRendered <= framesPresented
      && framesCount == FrameCount(dataIntervalUs, openRate)
    }

    /** adev_open_output_stream, from the configuration on. */
    constructor (port: BluetoothAudioPort, sampleRate: nat, frameSize: nat, preferredUs: Option<nat>, wantMinimum: bool)
      requires port.Valid() && sampleRate > 0 && frameSize > 0
      ensures Valid() && this.port == port && this.sampleRate == sampleRate == openRate
      ensures framesRendered == 0 && framesPresented == 0 && dataIntervalUs > 0
      ensures this.frameSize == frameSize && IsFrameCount(dataIntervalUs, sampleRate, framesCount)
      ensures wantMinimum ==> dataIntervalUs >= 10000
      ensures preferredUs.Some? && preferredUs.value >= 10000 ==> dataIntervalUs == preferredUs.value
      ensures preferredUs.Some? && preferredUs.value > 0 && !wantMinimum ==> dataIntervalUs == preferredUs.value
      ensures preferredUs.None? || preferredUs.value < 10000 ==> dataIntervalUs <= 10000
      ensures preferredUs.None? || preferredUs.value == 0 ==> dataIntervalUs == 10000
    {
      var intervalUs :=
        if preferredUs.Some? && preferredUs.value != 0 then preferredUs.value else DEFAULT_BUFFER_MS * 1000;
      if wantMinimum && intervalUs < SPATIALIZER_BUFFER_MS * 1000 {
        intervalUs := SPATIALIZER_BUFFER_MS * 1000;
      }
      this.port := port;
      dataIntervalUs := intervalUs;
      framesCount := FrameCount(intervalUs, sampleRate);
      FrameCountIs(intervalUs, sampleRate, FrameCount(intervalUs, sampleRate));
      this.sampleRate, this.frameSize, openRate := sampleRate, frameSize, sampleRate;
      framesRendered, framesPresented, resumes, offers := 0, 0, [], [];
    }

    /** While the rate is at least the one the stream was opened with, the fallback latency is within the
        data interval and 200 ms; while it is that rate, it falls short by at most a rounding. */
    lemma {:induction false} FallbackLatency()
      requires Valid() && openRate <= sampleRate
      ensures FallbackDelayMs(framesCount, sampleRate) <= dataIntervalUs / 1000 + EXTRA_AUDIO_SYNC_MS
      ensures sampleRate == openRate >= 1000 ==>
        FallbackDelayMs(framesCount, sampleRate) + 1 >= dataIntervalUs / 1000 + EXTRA_AUDIO_SYNC_MS
    {
      FallbackFaster(dataIntervalUs, openRate, sampleRate);
      if sampleRate == openRate >= 1000 {
        FallbackLower(dataIntervalUs, sampleRate);
      }
    }

    /** Other stream calls and callbacks, while the stream's lock is free. */
    method Interfere()
      requires Valid()
      modifies this`framesRendered, this`framesPresented, this`sampleRate, this`frameSize
      modifies port`state, port`steps, port`unsent
      ensures Valid() && old(port.steps) <= port.steps
    {
      port.Interfere();
      var rendered: nat, presented: nat :| rendered <= presented;
      var rate: nat, size: nat :| rate > 0 && size > 0;
      framesRendered, framesPresented, sampleRate, frameSize := rendered, presented, rate, size;
    }

    /** out_standby and out_pause: a started stream forgets what it rendered and suspends. */
    method StandbyOrPause() returns (retval: int)
      requires Valid()
      modifies this`framesRendered, port`state, port`steps, port`unsent
      ensures Valid() && old(port.steps) <= port.steps
      ensures framesRendered == if old(port.state) == Started then 0 else old(framesRendered)
      ensures retval == -EBUSY <==> old(port.state) == Starting || old(port.state) == Suspending
      ensures old(port.state) == Started ==>
        (retval == 0 <==> port.inUse && port.unsent == old(port.unsent) && port.state == Standby)
      ensures old(port.state) == Started && port.inUse ==> old(port.steps) + [RequestSuspend] <= port.steps
      ensures retval == 0 || retval == -EIO || retval == -EBUSY
      ensures old(port.state) != Started ==> port.state == old(port.state) && port.steps == old(port.steps)
      ensures old(port.state) == Standby || old(port.state) == Disabled ==> retval == 0
    {
      retval := 0;
      if port.state == Started {
        framesRendered := 0;
        var ok := port.Suspend();
        retval := if ok then 0 else -EIO;
      } else if port.state == Starting || port.state == Suspending {
        retval := -EBUSY;
      }
    }

    /** out_resume: 0 only with the port started. */
    method Resume() returns (retval: int)
      requires Valid()
      modifies this`resumes, port`state, port`steps, port`unsent
      ensures Valid() && old(port.steps) <= port.steps && resumes == old(resumes) + [retval]
      ensures retval == 0 ==> port.state == Started
      ensures old(port.state) == Standby ==>
        (retval == 0 <==> port.inUse && port.unsent == old(port.unsent) && port.state == Started)
      ensures old(port.state) == Standby && port.inUse ==> old(port.steps) + [RequestStart] <= port.steps
      ensures retval == 0 || retval == -EIO || retval == -EBUSY || retval == -EINVAL
      ensures retval == -EINVAL <==> old(port.state) == Disabled
      ensures retval == -EBUSY <==> old(port.state) == Starting || old(port.state) == Suspending
      ensures old(port.state) != Standby ==> port.state == old(port.state) && port.steps == old(port.steps)
      ensures old(port.state) == Started ==> retval == 0
    {
      retval := 0;
      if port.state == Standby {
        var ok := port.Start();
        retval := if ok then 0 else -EIO;
      } else if port.state == Starting || port.state == Suspending {
        retval := -EBUSY;
      } else if port.state == Disabled {
        retval := -EINVAL;
      }
      resumes := resumes + [retval];
    }

    /** out_set_parameters, from the parsed map on. */
    method SetParameters(params: map<string, string>, audioConfig: Option<(nat, nat)>, isA2dp: bool)
      requires Valid()
      requires audioConfig.Some? ==> audioConfig.value.0 > 0 && audioConfig.value.1 > 0
      modifies this`sampleRate, this`frameSize, this`framesRendered, this`framesPresented
      modifies port`state, port`steps, port`unsent
      ensures Valid() && old(port.steps) <= port.steps
      ensures !AsksConfig(params) || audioConfig.None? ==> sampleRate == old(sampleRate) && frameSize == old(frameSize)
      ensures AsksConfig(params) && audioConfig.Some? ==>
        sampleRate == audioConfig.value.0 && frameSize == audioConfig.value.1
      ensures isA2dp && Is(params, "A2dpSuspended", "true") ==>
        framesRendered == 0 && (port.inUse ==> port.state == Disabled)
      ensures Closes(params) && port.inUse ==> port.state == Disabled
      ensures !Closes(params) ==> framesPresented == old(framesPresented)
      ensures Closes(params) && old(port.state) != Disabled && !(isA2dp && "A2dpSuspended" in params) ==>
        framesRendered == 0 && framesPresented == 0
      ensures old(port.state) == Disabled && !Closes(params)
            && isA2dp && "A2dpSuspended" in params && params["A2dpSuspended"] != "true"
          ==> port.state == Standby
      ensures !Closes(params) && !(isA2dp && "A2dpSuspended" in params) ==>
        port.state == old(port.state) && port.steps == old(port.steps) && framesRendered == old(framesRendered)
    {
      if |params| == 0 {
        return;
      }
      if AsksConfig(params) {
        if audioConfig.Some? {
          sampleRate, frameSize := audioConfig.value.0, audioConfig.value.1;
        }
      }
      if "A2dpSuspended" in params && isA2dp {
        SetSuspended(params["A2dpSuspended"] == "true");
      }
      CloseIfAsked(params);
    }

    method CloseIfAsked(params: map<string, string>)
      requires Valid()
      modifies this`framesRendered, this`framesPresented, port`state, port`steps, port`unsent
      ensures Valid() && old(port.steps) <= port.steps
      ensures if Closes(params) then (if port.inUse then port.state == Disabled else port.state == old(port.state))
              else port.state == old(port.state) && port.steps == old(port.steps)
      ensures framesRendered == old(framesRendered) || (framesRendered == 0 && Closes(params))
      ensures framesPresented == old(framesPresented) || (framesPresented == 0 && Closes(params))
      ensures Closes(params) && old(port.state) != Disabled ==> framesRendered == 0 && framesPresented == 0
    {
      if Is(params, "closing", "true") {
        Close();
      }
      if Is(params, "exiting", "1") {
        Close();
      }
    }

    method SetSuspended(suspended: bool)
      requires Valid()
      modifies this`framesRendered, port`state, port`steps, port`unsent
      ensures Valid() && old(port.steps) <= port.steps
      ensures suspended ==> framesRendered == 0 && (port.inUse ==> port.state == Disabled)
      ensures !suspended ==> framesRendered == old(framesRendered)
      ensures !suspended ==> port.state == if old(port.state) == Disabled then Standby else old(port.state)
    {
      if suspended {
        framesRendered := 0;
        if port.state == Started {
          var _ := port.Suspend();
          port.SetPortState(Disabled);
        } else if port.state != Disabled {
          port.StopPort();
        }
      } else {
        if port.state == Disabled {
          port.SetPortState(Standby);
        }
      }
    }

    method Close()
      requires Valid()
      modifies this`framesRendered, this`framesPresented, port`state, port`steps, port`unsent
      ensures Valid() && old(port.steps) <= port.steps
      ensures port.state == if port.inUse then Disabled else old(port.state)
      ensures old(port.state) != Disabled ==> framesRendered == 0 && framesPresented == 0
      ensures old(port.state) == Disabled ==>
        framesRendered == old(framesRendered) && framesPresented == old(framesPresented)
    {
      if port.state != Disabled {
        framesRendered, framesPresented := 0, 0;
        port.StopPort();
      }
    }

    /** The port's data path: at most what was offered, nothing when the port is not in use. */
    method WriteData(bytes: nat) returns (written: nat)
      modifies this`offers
      ensures written <= bytes && (!port.inUse ==> written == 0) && offers == old(offers) + [(bytes, written)]
    {
      written := 0;
      if port.inUse {
        written :| 0 <= written <= bytes;
      }
      offers := offers + [(bytes, written)];
    }

    /** out_write: a write that got anything through counts every byte offered, in both counters alike,
        on top of whatever they are by then; a write that does not get through counts nothing. Exactly a
        stream that was not started resumes first, and exactly one that is or becomes started is offered
        the data. A stream that cannot resume because it is DISABLED pretends to have written all. */
    method Write(bytes: nat) returns (total: nat, ghost dropped: bool, ghost before: (nat, nat))
      requires Valid()
      modifies this, port`state, port`steps, port`unsent
      ensures Valid() && old(port.steps) <= port.steps && total <= bytes
      ensures before.0 <= before.1
      ensures var frames := if total != 0 && !dropped then bytes / frameSize else 0;
        framesRendered == before.0 + frames && framesPresented == before.1 + frames
      ensures resumes == old(resumes)
        || (old(port.state) != Started && |resumes| == |old(resumes)| + 1 && old(resumes) <= resumes)
      ensures old(port.state) != Started ==> resumes != old(resumes)
      ensures var through := resumes == old(resumes) || resumes[|resumes| - 1] == 0;
        && offers == old(offers) + (if through then [(bytes, total)] else [])
        && (dropped <==> !through && port.state == Disabled)
        && (!through ==> total == if dropped then bytes else 0)
    {
      total, dropped := 0, false;
      if port.state != Started {
        Interfere();
        var failure := Resume();
        if failure != 0 {
          Interfere();
          if port.state == Disabled {
            total, dropped := bytes, true;
          }
          before := (framesRendered, framesPresented);
          return;
        }
      }
      Interfere();
      total := WriteData(bytes);
      Interfere();
      before := (framesRendered, framesPresented);
      if total != 0 {
        CountFrames(bytes);
      }
    }

    method CountFrames(bytes: nat)
      requires Valid()
      modifies this`framesRendered, this`framesPresented
      ensures Valid()
      ensures framesRendered == old(framesRendered) + bytes / frameSize
      ensures framesPresented == old(framesPresented) + bytes / frameSize
    {
      var frames := bytes / frameSize;
      framesRendered := framesRendered + frames;
      framesPresented := framesPresented + frames;
    }

    /** out_get_presentation_position, in every reachable state and for any report of the stack. */
    method PresentationPosition(report: Report) returns (frames: nat)
      requires Valid()
      ensures var latency := LatencyFrames(DelayMs(report, framesCount, sampleRate), sampleRate);
        AtLeastZero(framesPresented - 2 * latency) <= frames <= AtLeastZero(framesPresented - latency)
      ensures forall ms: nat, latency: nat ::
        IsDelay(report, framesCount, sampleRate, ms) && IsLatency(ms, sampleRate, latency) ==>
          framesPresented - 2 * latency <= frames && (frames == 0 || frames <= framesPresented - latency)
    {
      frames := FeedingPosition(report, framesPresented, framesCount, sampleRate, frameSize);
    }

    /** out_get_render_position, in every reachable state and for any report of the stack: it never runs
        ahead of what was presented, less the latency while the counters fit 32 bits. */
    method RenderedPosition(report: Report) returns (dspFrames: nat)
      requires Valid()
      ensures dspFrames <= framesRendered <= framesPresented
      ensures framesPresented < 0x1_0000_0000 ==>
        dspFrames <= AtLeastZero(framesPresented - RenderLatency(report, framesCount, sampleRate))
      ensures forall ms: nat, latency: nat ::
        framesPresented < 0x1_0000_0000
        && IsDelay(report, framesCount, sampleRate, ms) && IsLatency(ms % 0x1_0000_0000, sampleRate, latency) ==>
          dspFrames == 0 || dspFrames <= framesPresented - latency
    {
      dspFrames := RenderPosition(report, framesRendered, framesCount, sampleRate);
    }
  }

  predicate Is(params: map<string, string>, key: string, value: string) {
    key in params && params[key] == value
  }

  predicate AsksConfig(params: map<string, string>) {
    "sup_sampling_rates" in params || "sup_channels" in params || "sup_formats" in params
  }

  predicate Closes(params: map<string, string>) {
    Is(params, "closing", "true") || Is(params, "exiting", "1")
  }
}
