/** A Bluetooth audio session: its start and end, readiness, observers, and the copy loops between a
    caller's buffer and the session's bounded queue. */
module AudioSession {
  import opened Collections
  import opened SessionTypes

  newtype sample = x: int | -0x80 <= x < 0x80

  /** The fast message queue: what has been put in and not taken out. */
  datatype Queue = Queue(valid: bool, capacity: nat, contents: seq<sample>) {
    predicate Fits() {
      |contents| <= capacity
    }
  }

  type SoundQueue = q: Queue | q.Fits() witness Queue(false, 0, [])

  /** A registered observer; the configuration callback may be missing. */
  datatype Callbacks = Callbacks(owner: nat, hasConfigChanged: bool)

  datatype Event = SessionChanged | ControlResult(startResp: bool, status: int) | ConfigChanged

  datatype Call = Call(cookie: int, event: Event)

  /** Why a copy loop stopped. NoQueue is where the source goes through its null queue pointer: in a
      session of an offload type, which is ready without a queue. */
  datatype Stop = Done | NotReady | NoQueue | QueueError | TimedOut

  predicate Wants(cb: Callbacks, event: Event) {
    event.ConfigChanged? ==> cb.hasConfigChanged
  }

  /** Every observer hears of the session and of results; of configurations those that have a callback. */
  function Listeners(observers: map<int, Callbacks>, event: Event): (s: set<int>)
    ensures event != ConfigChanged ==> s == observers.Keys
    ensures event == ConfigChanged ==> forall c :: c in s <==> c in observers && observers[c].hasConfigChanged
  {
    set c | c in observers && Wants(observers[c], event)
  }

  function CallsIn(order: seq<int>, event: Event): (calls: seq<Call>)
    ensures |calls| == |order| && forall i :: 0 <= i < |calls| ==> calls[i] == Call(order[i], event)
  {
    seq(|order|, i requires 0 <= i < |order| => Call(order[i], event))
  }

  /** One call for every listener with its own cookie, none for anybody else. */
  ghost predicate Notified(before: seq<Call>, after: seq<Call>, observers: map<int, Callbacks>, event: Event) {
    exists order :: Enumerates(order, Listeners(observers, event)) && after == before + CallsIn(order, event)
  }

  const SEND_TIMEOUT_MS: int := 1000
  const RECEIVE_TIMEOUT_MS: int := 1000
  const POLL_MS: int := 1

  class BluetoothAudioSession {
    const sessionType: SessionType
    var stackIface: bool
    var dataMq: Option<SoundQueue>
    var audioConfig: Option<AudioConfiguration>
    var observers: map<int, Callbacks>
    /** The calls made to observers, the samples that crossed the queue for the caller, and how often the
        queue refused what it was asked. */
    ghost var calls: seq<Call>
    ghost var sent: seq<sample>
    ghost var received: seq<sample>
    ghost var refused: nat

    constructor (sessionType: SessionType)
      ensures this.sessionType == sessionType && Valid() && TagFits()
      ensures !stackIface && dataMq.None? && audioConfig.None? && observers == map[] && calls == []
    {
      this.sessionType := sessionType;
      stackIface, dataMq, audioConfig, observers := false, None, None, map[];
      calls, sent, received, refused := [], [], [], 0;
    }

    /** Live cookies are in the range of the session's type. */
    ghost predicate Valid()
      reads this
    {
      forall c :: c in observers ==> CookieOf(sessionType, c)
    }

    /** A stored configuration is of the type's kind; LE broadcast offload never stores one. */
    ghost predicate TagFits()
      reads this
    {
      audioConfig.Some? ==> Startable(sessionType) && audioConfig.value.tag == Kind(sessionType)
    }

    predicate Ready()
      reads this
    {
      stackIface && (IsOffload(sessionType) || (dataMq.Some? && dataMq.value.valid)) && audioConfig.Some?
    }

    // ----------------------------------------------------------------------
    // Start and end
    // ----------------------------------------------------------------------

    method UpdateAudioConfig(config: AudioConfiguration) returns (ok: bool)
      modifies this`audioConfig
      ensures ok == (Startable(sessionType) && config.tag == Kind(sessionType))
      ensures ok && config.tag == Pcm <==> IsSoftware(sessionType) && config.tag == Pcm
      ensures ok && config.tag == LeAudio <==> IsLeOffload(sessionType) && config.tag == LeAudio
      ensures ok && config.tag == A2dp <==>
        sessionType in {A2dpHardwareOffloadEncoding, A2dpHardwareOffloadDecoding} && config.tag == A2dp
      ensures ok ==> config.tag != LeAudioBroadcast
      ensures audioConfig == if ok then Some(config) else old(audioConfig)
    {
      var software := IsSoftware(sessionType) && config.tag == Pcm;
      var a2dp := sessionType in {A2dpHardwareOffloadEncoding, A2dpHardwareOffloadDecoding} && config.tag == A2dp;
      var le := IsLeOffload(sessionType) && config.tag == LeAudio;
      if !software && !a2dp && !le {
        return false;
      }
      audioConfig := Some(config);
      return true;
    }

    method UpdateDataPath(queue: Option<SoundQueue>) returns (ok: bool)
      modifies this`dataMq
      ensures ok == (queue.Some? ==> queue.value.valid)
      ensures dataMq == if ok then queue else None
    {
      if queue.None? {
        dataMq := None;
        return true;
      }
      if !queue.value.valid {
        dataMq := None;
        return false;
      }
      dataMq := queue;
      return true;
    }

    /** The three checks in turn: a failed data path leaves no configuration, a failed configuration
        leaves everything, and only success is announced. */
    method OnSessionStarted(iface: bool, queue: Option<SoundQueue>, config: AudioConfiguration)
      requires Valid()
      modifies this`stackIface, this`dataMq, this`audioConfig, this`calls
      ensures old(TagFits()) ==> TagFits()
      ensures var accepted := iface && Startable(sessionType) && config.tag == Kind(sessionType);
        var started := accepted && (queue.Some? ==> queue.value.valid);
        && (started ==> stackIface && audioConfig == Some(config) && dataMq == queue
                        && Notified(old(calls), calls, observers, SessionChanged))
        && (!started ==> stackIface == old(stackIface) && calls == old(calls))
        && (!accepted ==> audioConfig == old(audioConfig) && dataMq == old(dataMq))
        && (accepted && !started ==> audioConfig.None? && dataMq.None? && !Ready())
    {
      if !iface {
        return;
      }
      var configOk := UpdateAudioConfig(config);
      if !configOk {
        return;
      }
      var pathOk := UpdateDataPath(queue);
      if !pathOk {
        audioConfig := None;
        return;
      }
      stackIface := true;
      NotifyAll(SessionChanged);
    }

    /** Nothing of the session is left; observers hear of it just when it had been ready. */
    method OnSessionEnded()
      requires Valid()
      modifies this`stackIface, this`dataMq, this`audioConfig, this`calls
      ensures !stackIface && dataMq.None? && audioConfig.None? && !Ready() && TagFits()
      ensures if old(Ready()) then Notified(old(calls), calls, observers, SessionChanged) else calls == old(calls)
    {
      var toggled := Ready();
      audioConfig := None;
      stackIface := false;
      var _ := UpdateDataPath(None);
      if toggled {
        NotifyAll(SessionChanged);
      }
    }

    /** The tag depends on the session's type alone. */
    method GetAudioConfig() returns (config: AudioConfiguration)
      requires TagFits()
      ensures config.tag == Kind(sessionType)
      ensures Ready() ==> Some(config) == audioConfig
    {
      if !Ready() {
        match sessionType {
          case A2dpHardwareOffloadEncoding => return AudioConfiguration(A2dp, 0);
          case A2dpHardwareOffloadDecoding => return AudioConfiguration(A2dp, 0);
          case LeAudioHardwareOffloadEncoding => return AudioConfiguration(LeAudio, 0);
          case LeAudioHardwareOffloadDecoding => return AudioConfiguration(LeAudio, 0);
          case LeAudioBroadcastHardwareOffloadEncoding => return AudioConfiguration(LeAudioBroadcast, 0);
          case _ => return AudioConfiguration(Pcm, 0);
        }
      }
      return audioConfig.value;
    }

    /** Only LE offload sessions take a new configuration; the tag is not checked here. */
    method ReportAudioConfigChanged(config: AudioConfiguration)
      requires Valid()
      modifies this`audioConfig, this`calls
      ensures if IsLeOffload(sessionType) then audioConfig == Some(config)
          && Notified(old(calls), calls, observers, ConfigChanged)
              else audioConfig == old(audioConfig) && calls == old(calls)
    {
      if sessionType != LeAudioHardwareOffloadEncoding && sessionType != LeAudioHardwareOffloadDecoding {
        return;
      }
      audioConfig := Some(config);
      NotifyAll(ConfigChanged);
    }

    // ----------------------------------------------------------------------
    // Observers
    // ----------------------------------------------------------------------

    method RegisterStatusCback(callbacks: Callbacks) returns (cookie: int)
      requires Valid()
      modifies this`observers
      ensures Valid()
      ensures (observers.Keys, cookie) == Registered(old(observers.Keys), sessionType)
      ensures if |old(observers)| == COOKIE_SIZE then observers == old(observers) && cookie == COOKIE_UNDEFINED
              else cookie !in old(observers) && observers == old(observers)[cookie := callbacks]
    {
      FailsIffFull(observers.Keys, sessionType);
      cookie := CookieInit(sessionType);
      while cookie < CookieUpper(sessionType)
        invariant CookieInit(sessionType) <= cookie <= CookieUpper(sessionType)
        invariant FirstFree(observers.Keys, cookie, CookieUpper(sessionType))
               == FirstFree(observers.Keys, CookieInit(sessionType), CookieUpper(sessionType))
      {
        if cookie !in observers {
          break;
        }
        cookie := cookie + 1;
      }
      if cookie >= CookieUpper(sessionType) {
        return COOKIE_UNDEFINED;
      }
      observers := observers[cookie := callbacks];
      assert observers.Keys == old(observers.Keys) + {cookie};
    }

    method UnregisterStatusCback(cookie: int)
      requires Valid()
      modifies this`observers
      ensures Valid()
      ensures observers == old(observers) - {cookie}
    {
      observers := observers - {cookie};
    }

    /** The notification loop: it visits every observer once. */
    method NotifyAll(event: Event)
      modifies this`calls
      ensures Notified(old(calls), calls, observers, event)
    {
      var left: set<int> := observers.Keys;
      ghost var order: seq<int> := [];
      while left != {}
        invariant left <= observers.Keys
        invariant Enumerates(order, Listeners(observers, event) - left)
        invariant calls == old(calls) + CallsIn(order, event)
        decreases left
      {
        ghost var _ := Inhabited(left);
        var cookie :| cookie in left;
        left := left - {cookie};
        if event.ConfigChanged? ==> observers[cookie].hasConfigChanged {
          calls := calls + [Call(cookie, event)];
          order := order + [cookie];
        }
      }
      assert Listeners(observers, event) - left == Listeners(observers, event);
    }

    method ReportControlStatus(startResp: bool, status: int)
      modifies this`calls
      ensures Notified(old(calls), calls, observers, ControlResult(startResp, status))
    {
      NotifyAll(ControlResult(startResp, status));
    }

    // ----------------------------------------------------------------------
    // The copy loops
    // ----------------------------------------------------------------------

    /** Anything other threads may do while the lock is free: the peer fills or drains the queue, other
        writers use it, the session ends, restarts, or gets another queue. */
    method Interfere()
      modifies this`stackIface, this`dataMq, this`audioConfig
    {
      stackIface := *;
      dataMq := *;
      audioConfig := *;
    }

    /** Writing to the queue is all or nothing. */
    method MqWrite(data: seq<sample>) returns (ok: bool)
      requires dataMq.Some? && |dataMq.value.contents| + |data| <= dataMq.value.capacity
      modifies this`dataMq, this`sent, this`refused
      ensures refused == old(refused) + if ok then 0 else 1
      ensures dataMq.Some?
      ensures ok ==>
        dataMq.value == old(dataMq.value).(contents := old(dataMq.value.contents) + data) && sent == old(sent) + data
      ensures !ok ==> dataMq == old(dataMq) && sent == old(sent)
    {
      ok := *;
      if ok {
        dataMq := Some(dataMq.value.(contents := dataMq.value.contents + data));
        sent := sent + data;
      } else {
        refused := refused + 1;
      }
    }

    /** Reading takes the oldest samples and stores them at an offset of the buffer, or does nothing. */
    method MqRead(buffer: array<sample>, offset: nat, count: nat) returns (ok: bool)
      requires dataMq.Some? && count <= |dataMq.value.contents| && offset + count <= buffer.Length
      modifies this`dataMq, this`received, this`refused, buffer
      ensures refused == old(refused) + if ok then 0 else 1
      ensures dataMq.Some?
      ensures ok ==> dataMq.value == old(dataMq.value).(contents := old(dataMq.value.contents)[count..])
      ensures ok ==> received == old(received) + old(dataMq.value.contents)[..count]
      ensures ok ==>
        buffer[..] == old(buffer[..offset]) + old(dataMq.value.contents)[..count] + old(buffer[offset + count..])
      ensures !ok ==> dataMq == old(dataMq) && received == old(received) && buffer[..] == old(buffer[..])
    {
      ok := *;
      if ok {
        var taken := dataMq.value.contents[..count];
        forall i | 0 <= i < count {
          buffer[offset + i] := taken[i];
        }
        dataMq := Some(dataMq.value.(contents := dataMq.value.contents[count..]));
        received := received + taken;
      } else {
        refused := refused + 1;
      }
    }

    /** What was enqueued, whatever happened to the session in between, is exactly the part of the
        buffer that the returned count says, in order. */
    method OutWritePcmData(buffer: array?<sample>, bytes: nat) returns (totalWritten: nat, ghost why: Stop,
                                                                        ghost polls: nat)
      requires buffer != null ==> bytes <= buffer.Length
      modifies this`stackIface, this`dataMq, this`audioConfig, this`sent, this`refused
      ensures totalWritten <= bytes && (buffer == null ==> totalWritten == 0)
      ensures sent == old(sent) + if buffer == null then [] else buffer[..totalWritten]
      ensures polls <= SEND_TIMEOUT_MS / POLL_MS
      ensures buffer != null ==> (why == Done <==> totalWritten == bytes)
      ensures why == NotReady ==> !Ready()
      ensures why == NoQueue <==> why != Done && Ready() && dataMq.None?
      ensures why == NoQueue ==> IsOffload(sessionType)
      ensures refused == old(refused) + if why == QueueError then 1 else 0
      ensures refused == old(refused) && Ready() && dataMq.Some? ==> why == Done || why == TimedOut
      ensures why == TimedOut ==> Ready() && polls == SEND_TIMEOUT_MS / POLL_MS
      ensures why == TimedOut ==> dataMq.Some? && |dataMq.value.contents| == dataMq.value.capacity
    {
      totalWritten, why, polls := 0, Done, 0;
      if buffer == null || bytes <= 0 {
        return;
      }
      var timeoutMs := SEND_TIMEOUT_MS;
      while totalWritten < bytes
        invariant totalWritten <= bytes && 0 <= timeoutMs && polls * POLL_MS == SEND_TIMEOUT_MS - timeoutMs
        invariant sent == old(sent) + buffer[..totalWritten] && why == Done && refused == old(refused)
        decreases bytes - totalWritten + timeoutMs
      {
        Interfere();
        if !Ready() {
          why := NotReady;
          break;
        }
        if dataMq.None? {
          why := NoQueue;
          return;
        }
        var count := dataMq.value.capacity - |dataMq.value.contents|;
        if count != 0 {
          if count > bytes - totalWritten {
            count := bytes - totalWritten;
          }
          var ok := MqWrite(buffer[totalWritten..totalWritten + count]);
          if !ok {
            why := QueueError;
            return;
          }
          assert buffer[..totalWritten] + buffer[totalWritten..totalWritten + count] == buffer[..totalWritten + count];
          totalWritten := totalWritten + count;
        } else if timeoutMs >= POLL_MS {
          timeoutMs := timeoutMs - POLL_MS;
          polls := polls + 1;
        } else {
          why := TimedOut;
          return;
        }
      }
    }

    /** What was taken out of the queue is exactly the part of the buffer that the returned count says,
        in order; the rest of the buffer is untouched. */
    method InReadPcmData(buffer: array?<sample>, bytes: nat) returns (totalRead: nat, ghost why: Stop, ghost polls: nat)
      requires buffer != null ==> bytes <= buffer.Length
      modifies this`stackIface, this`dataMq, this`audioConfig, this`received, this`refused, buffer
      ensures totalRead <= bytes && (buffer == null ==> totalRead == 0)
      ensures received == old(received) + if buffer == null then [] else buffer[..totalRead]
      ensures buffer != null ==> buffer[totalRead..] == old(buffer[..])[totalRead..]
      ensures polls <= RECEIVE_TIMEOUT_MS / POLL_MS
      ensures buffer != null ==> (why == Done <==> totalRead == bytes)
      ensures why == NotReady ==> !Ready()
      ensures why == NoQueue <==> why != Done && Ready() && dataMq.None?
      ensures why == NoQueue ==> IsOffload(sessionType)
      ensures refused == old(refused) + if why == QueueError then 1 else 0
      ensures refused == old(refused) && Ready() && dataMq.Some? ==> why == Done || why == TimedOut
      ensures why == TimedOut ==>
        Ready() && polls == RECEIVE_TIMEOUT_MS / POLL_MS && dataMq.Some? && dataMq.value.contents == []
    {
      totalRead, why, polls := 0, Done, 0;
      if buffer == null || bytes <= 0 {
        return;
      }
      var timeoutMs := RECEIVE_TIMEOUT_MS;
      while totalRead < bytes
        invariant totalRead <= bytes && 0 <= timeoutMs && polls * POLL_MS == RECEIVE_TIMEOUT_MS - timeoutMs
        invariant received == old(received) + buffer[..totalRead] && why == Done && refused == old(refused)
        invariant buffer[totalRead..] == old(buffer[..])[totalRead..]
        decreases bytes - totalRead + timeoutMs
      {
        Interfere();
        if !Ready() {
          why := NotReady;
          break;
        }
        if dataMq.None? {
          why := NoQueue;
          return;
        }
        var count := |dataMq.value.contents|;
        if count != 0 {
          if count > bytes - totalRead {
            count := bytes - totalRead;
          }
          ghost var before, taken := buffer[..totalRead], dataMq.value.contents[..count];
          var ok := MqRead(buffer, totalRead, count);
          if !ok {
            why := QueueError;
            return;
          }
          assert buffer[..totalRead + count] == before + taken;
          assert buffer[totalRead + count..] == old(buffer[..])[totalRead + count..];
          totalRead := totalRead + count;
        } else if timeoutMs >= POLL_MS {
          timeoutMs := timeoutMs - POLL_MS;
          polls := polls + 1;
        } else {
          why := TimedOut;
          return;
        }
      }
    }
  }

  /** Two sessions of different types never share a live cookie. */
  lemma {:induction false} SessionsApart(a: BluetoothAudioSession, b: BluetoothAudioSession)
    requires a.Valid() && b.Valid() && a.sessionType != b.sessionType
    ensures a.observers.Keys !! b.observers.Keys
  {
    forall c | c in a.observers && c in b.observers
      ensures false
    {
      CookieDecodes(a.sessionType, c);
    }
  }
}
