/** The device port proxy: requests that wait for results, while callbacks and other threads step the port. */
module DevicePort {
  import opened PortMachine

  class BluetoothAudioPort {
    var state: StreamState
    var inUse: bool
    /** Every atomic step so far. */
    ghost var steps: seq<Step>
    /** How many requests the session refused to pass on to the stack. */
    ghost var unsent: nat

    ghost predicate Valid()
      reads this`state, this`inUse, this`steps
    {
      Port(state, inUse) == Run(steps) && AllByStreams(steps)
    }

    constructor ()
      ensures Valid() && !inUse && state == Disabled
    {
      state, inUse := Disabled, false;
      steps, unsent := [], 0;
    }

    ghost method Record(step: Step)
      requires AllByStreams(steps) && ByStreams(step)
      modifies this`steps
      ensures steps == old(steps) + [step] && AllByStreams(steps)
      ensures Run(steps) == Next(Run(old(steps)), step)
    {
      assert (steps + [step])[..|steps|] == steps;
      steps := steps + [step];
    }

    /** SetUp comes out of any state at STANDBY; when no cookie is left the port stays unused. */
    method SetUpPort(sessionReady: bool, cookieLeft: bool) returns (ok: bool)
      requires Valid()
      modifies this
      ensures Valid() && steps == old(steps) + [SetUp(sessionReady, cookieLeft)]
      ensures ok == (sessionReady && cookieLeft)
      ensures sessionReady ==> state == Standby && inUse == cookieLeft
      ensures !sessionReady ==> state == old(state) && inUse == old(inUse)
    {
      Record(SetUp(sessionReady, cookieLeft));
      if !sessionReady {
        return false;
      }
      state := Standby;
      inUse := cookieLeft;
      return inUse;
    }

    method TearDownPort()
      requires Valid()
      modifies this
      ensures Valid() && !inUse && state == old(state) && steps == old(steps) + [TearDown]
    {
      Record(TearDown);
      if !inUse {
        return;
      }
      inUse := false;
    }

    /** The registered callbacks check use and cookie before the handlers run. */
    method ControlResultCallback(ours: bool, startResp: bool, status: Status)
      requires Valid()
      modifies this`state, this`steps
      ensures Valid() && steps == old(steps) + [ControlResult(ours, startResp, status)]
      ensures !inUse || !ours ==> state == old(state)
      ensures inUse && ours && old(state) == Starting ==> state == if status == Success then Started else Standby
      ensures inUse && ours && old(state) == Suspending ==> state == if status == Success then Standby else Disabled
      ensures inUse && ours && old(state) == Started ==> state == if status.Failure? then Started else Standby
      ensures old(state) == Standby || old(state) == Disabled ==> state == old(state)
    {
      Record(ControlResult(ours, startResp, status));
      if !inUse || !ours {
        return;
      }
      match state {
        case Started =>
          if status == Reconfiguration || status == Success {
            state := Standby;
          }
        case Starting =>
          if status == Success {
            state := Started;
          } else {
            state := Standby;
          }
        case Suspending =>
          if status == Success {
            state := Standby;
          } else {
            state := Disabled;
          }
        case _ =>
      }
    }

    method SessionChangedCallback(ours: bool)
      requires Valid()
      modifies this`state, this`steps
      ensures Valid() && steps == old(steps) + [SessionChanged(ours)]
      ensures state == if inUse && ours then Disabled else old(state)
    {
      Record(SessionChanged(ours));
      if !inUse || !ours {
        return;
      }
      state := Disabled;
    }

    /** Any number of steps of callbacks and other threads. */
    method Interfere()
      requires Valid()
      modifies this`state, this`steps
      ensures Valid() && old(steps) <= steps
    {
      var count: nat :| true;
      for i := 0 to count
        invariant Valid() && old(steps) <= steps
      {
        var ours, startResp: bool, status: Status := *, *, *;
        if {
          case true => ControlResultCallback(ours, startResp, status);
          case true => SessionChangedCallback(ours);
          case true => StopPort();
          case true => SetPortState(Disabled);
          case true => SetPortState(Standby);
          case true => var _ := BeginStart();
          case true => var _ := BeginSuspend();
        }
      }
    }

    method BeginStart() returns (begun: bool)
      requires Valid()
      modifies this`state, this`steps
      ensures Valid() && steps == old(steps) + [RequestStart]
      ensures begun == (inUse && old(state) == Standby)
      ensures state == if begun then Starting else old(state)
    {
      Record(RequestStart);
      begun := inUse && state == Standby;
      if begun {
        state := Starting;
      }
    }

    method BeginSuspend() returns (begun: bool)
      requires Valid()
      modifies this`state, this`steps
      ensures Valid() && steps == old(steps) + [RequestSuspend]
      ensures begun == (inUse && old(state) == Started)
      ensures state == if begun then Suspending else old(state)
    {
      Record(RequestSuspend);
      begun := inUse && state == Started;
      if begun {
        state := Suspending;
      }
    }

    /** wait_for: steps go on until the waited state is left or the time is up; true only for the
        state the request aimed at. */
    method CondwaitState(waited: StreamState) returns (r: bool)
      requires Valid()
      modifies this`state, this`steps
      ensures Valid() && old(steps) <= steps
      ensures r <==> (waited == Starting && state == Started) || (waited == Suspending && state == Standby)
    {
      if waited != Starting && waited != Suspending {
        return false;
      }
      Interfere();
      r := state != waited;
      r := r && state == if waited == Starting then Started else Standby;
    }

    /** StartStream and SuspendStream of the session: the request goes to the stack, or is refused. */
    method SendRequest() returns (sent: bool)
      modifies this`unsent
      ensures unsent == old(unsent) + if sent then 0 else 1
    {
      sent := *;
      if !sent {
        unsent := unsent + 1;
      }
    }

    /** True exactly when the request was made from STANDBY, was sent, and the port is STARTED at the end of
        the wait; then a SUCCESS for this port arrived since the request. */
    method Start() returns (r: bool)
      requires Valid()
      modifies this`state, this`steps, this`unsent
      ensures Valid() && old(steps) <= steps && old(unsent) <= unsent
      ensures r <==> inUse && old(state) == Standby && unsent == old(unsent) && state == Started
      ensures inUse ==> old(steps) + [RequestStart] <= steps
      ensures r ==> exists k :: |old(steps)| < k < |steps| && BringsStarted(steps, k)
      ensures !(inUse && old(state) == Standby) ==> !r && state == old(state)
    {
      if !inUse {
        return false;
      }
      var begun := BeginStart();
      r := false;
      if begun {
        ghost var requested := steps;
        Interfere();
        var sent := SendRequest();
        if sent {
          r := CondwaitState(Starting);
        }
        if r {
          ResultSince(requested, steps);
        }
      }
    }

    /** True exactly when the request was made from STARTED, was sent, and the port is at STANDBY at the end
        of the wait. */
    method Suspend() returns (r: bool)
      requires Valid()
      modifies this`state, this`steps, this`unsent
      ensures Valid() && old(steps) <= steps && old(unsent) <= unsent
      ensures r <==> inUse && old(state) == Started && unsent == old(unsent) && state == Standby
      ensures inUse ==> old(steps) + [RequestSuspend] <= steps
      ensures r ==> exists k :: |old(steps)| < k < |steps| && BringsStandby(steps, k)
      ensures !(inUse && old(state) == Started) ==> !r && state == old(state)
    {
      if !inUse {
        return false;
      }
      var begun := BeginSuspend();
      r := false;
      if begun {
        ghost var requested := steps;
        Interfere();
        var sent := SendRequest();
        if sent {
          r := CondwaitState(Suspending);
        }
        if r {
          StandbyAgain(requested, steps);
        }
      }
    }

    method StopPort()
      requires Valid()
      modifies this`state, this`steps
      ensures Valid() && steps == old(steps) + [Stop]
      ensures state == if inUse then Disabled else old(state)
    {
      Record(Stop);
      if !inUse {
        return;
      }
      state := Disabled;
    }

    /** Only the two states the streams set by hand. */
    method SetPortState(to: StreamState)
      requires Valid() && (to == Disabled || to == Standby)
      modifies this`state, this`steps
      ensures Valid() && state == to && steps == old(steps) + [SetState(to)]
    {
      Record(SetState(to));
      state := to;
    }
  }

  /** A port that is STARTED now and was STARTING then got a SUCCESS of its own in between. */
  lemma {:induction false} ResultSince(before: seq<Step>, now: seq<Step>)
    requires AllByStreams(now) && before <= now && |before| > 0
    requires Run(before).state == Starting && Run(now).state == Started
    ensures exists k :: |before| <= k < |now| && BringsStarted(now, k)
  {
    assert now[..|before|] == before && now[..|now|] == now;
    var k := StartedSince(now, |before|, |now|);
  }

  /** A port that is at STANDBY now and was SUSPENDING then was brought there in between. */
  lemma {:induction false} StandbyAgain(before: seq<Step>, now: seq<Step>)
    requires AllByStreams(now) && before <= now && |before| > 0
    requires Run(before).state == Suspending && Run(now).state == Standby
    ensures exists k :: |before| <= k < |now| && BringsStandby(now, k)
  {
    assert now[..|before|] == before && now[..|now|] == now;
    var k := StandbySince(now, |before|, |now|);
  }
}
