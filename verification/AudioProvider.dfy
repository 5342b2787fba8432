/** The provider side: what the Bluetooth stack's calls do to a session, over any run of them. */
module AudioProvider {
  import opened Collections
  import opened SessionTypes
  import opened AudioSession

  /** The tag the provider of a type checks before it starts a session. The LE broadcast offload
      provider asks for the unicast LE tag, which its session then refuses. */
  function StartTag(t: SessionType): Tag {
    if t == A2dpHardwareOffloadEncoding || t == A2dpHardwareOffloadDecoding then A2dp
    else if IsLeOffload(t) || t == LeAudioBroadcastHardwareOffloadEncoding then LeAudio
    else Pcm
  }

  class BluetoothAudioProvider {
    const session: BluetoothAudioSession
    var stackIface: bool
    var audioConfig: Option<AudioConfiguration>
    var isBinderDied: bool

    constructor (session: BluetoothAudioSession)
      requires session.Valid() && session.TagFits()
      ensures this.session == session && Inv() && !stackIface && audioConfig.None?
    {
      this.session := session;
      stackIface, audioConfig, isBinderDied := false, None, false;
    }

    /** Kept by every call: the provider only ever holds a configuration of its own tag, and the session
        one of its kind. */
    ghost predicate Inv()
      reads this, session
    {
      && session.Valid() && session.TagFits()
      && (audioConfig.Some? ==> audioConfig.value.tag == StartTag(session.sessionType))
    }

    /** A start is answered ok once the tag and the configuration pass, even when the session refuses
        what it is told or is not told at all because the software queue is unusable. */
    method StartSession(hostIface: bool, config: AudioConfiguration, supported: bool,
                        queue: Option<SoundQueue>) returns (ok: bool)
      requires Inv()
      modifies this, session`stackIface, session`dataMq, session`audioConfig, session`calls
      ensures Inv()
      ensures ok == (config.tag == StartTag(session.sessionType) && supported && hostIface)
      ensures ok ==> stackIface && audioConfig == Some(config) && !isBinderDied
      ensures !ok ==>
        stackIface == old(stackIface) && audioConfig == old(audioConfig) && session.calls == old(session.calls)
      ensures var t := session.sessionType;
        if ok && Startable(t) && (IsOffload(t) || (queue.Some? && queue.value.valid))
        then session.Ready() && session.audioConfig == Some(config)
          && session.dataMq == (if IsOffload(t) then None else queue)
          && Notified(old(session.calls), session.calls, session.observers, SessionChanged)
        else session.calls == old(session.calls) && session.Ready() == old(session.Ready())
    {
      if config.tag != StartTag(session.sessionType) || !supported {
        return false;
      }
      if !hostIface {
        return false;
      }
      audioConfig := Some(config);
      stackIface := true;
      isBinderDied := false;
      if IsOffload(session.sessionType) {
        session.OnSessionStarted(stackIface, None, config);
      } else if queue.Some? && queue.value.valid {
        session.OnSessionStarted(stackIface, queue, config);
      }
      return true;
    }

    method EndSession()
      requires Inv()
      modifies this`stackIface, this`audioConfig, session`stackIface, session`dataMq, session`audioConfig, session`calls
      ensures Inv() && !stackIface && audioConfig.None?
      ensures old(stackIface) ==> !session.Ready()
      ensures if old(stackIface) && old(session.Ready()) then
                Notified(old(session.calls), session.calls, session.observers, SessionChanged)
              else session.calls == old(session.calls)
    {
      if stackIface {
        session.OnSessionEnded();
      }
      stackIface := false;
      audioConfig := None;
    }

    method BinderDied()
      requires Inv()
      modifies this, session`stackIface, session`dataMq, session`audioConfig, session`calls
      ensures Inv() && isBinderDied && !stackIface && audioConfig.None?
      ensures old(stackIface) ==> !session.Ready()
      ensures if old(stackIface) && old(session.Ready()) then
                Notified(old(session.calls), session.calls, session.observers, SessionChanged)
              else session.calls == old(session.calls)
    {
      isBinderDied := true;
      EndSession();
    }

    /** Only a configuration of the tag already held is taken, so the session's kind is kept. */
    method UpdateAudioConfiguration(config: AudioConfiguration) returns (ok: bool)
      requires Inv()
      modifies this`audioConfig, session`audioConfig, session`calls
      ensures Inv()
      ensures ok == (stackIface && old(audioConfig).Some? && config.tag == old(audioConfig).value.tag)
      ensures audioConfig == if ok then Some(config) else old(audioConfig)
      ensures if ok && IsLeOffload(session.sessionType) then session.audioConfig == Some(config)
          && Notified(old(session.calls), session.calls, session.observers, ConfigChanged)
        else session.audioConfig == old(session.audioConfig) && session.calls == old(session.calls)
    {
      if !stackIface || audioConfig.None? {
        return false;
      }
      if config.tag != audioConfig.value.tag {
        return false;
      }
      audioConfig := Some(config);
      session.ReportAudioConfigChanged(config);
      return true;
    }

    /** streamStarted and streamSuspended: passed on to every observer while there is a session. */
    method StreamReport(startResp: bool, status: int)
      requires Inv()
      modifies session`calls
      ensures Inv()
      ensures if stackIface then
          Notified(old(session.calls), session.calls, session.observers, ControlResult(startResp, status))
              else session.calls == old(session.calls)
    {
      if stackIface {
        session.ReportControlStatus(startResp, status);
      }
    }

    /** Over any run of provider calls: the tag a session shows is a function of its type alone, and an
        LE broadcast offload session is never ready. */
    method ShownConfig() returns (config: AudioConfiguration)
      requires Inv()
      ensures config.tag == Kind(session.sessionType)
      ensures session.Ready() ==> Startable(session.sessionType)
    {
      config := session.GetAudioConfig();
    }
  }
}
