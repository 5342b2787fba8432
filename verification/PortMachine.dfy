/** The state machine of a Bluetooth audio port: its atomic steps, and what every run of them keeps. */
module PortMachine {

  datatype StreamState = Disabled | Standby | Starting | Started | Suspending

  datatype Status = Success | Reconfiguration | Failure(code: int)

  datatype Port = Port(state: StreamState, inUse: bool)

  const NEW_PORT: Port := Port(Disabled, false)

  /** One atomic step. A start or a suspension is a request; its outcome arrives as a control result.
      Callbacks carry whether their cookie is the port's. */
  datatype Step =
    | SetUp(sessionReady: bool, registered: bool)
    | TearDown
    | RequestStart
    | RequestSuspend
    | Stop
    | SetState(to: StreamState)
    | ControlResult(ours: bool, startResp: bool, status: Status)
    | SessionChanged(ours: bool)

  /** ControlResultHandler: what a result means depends on the state alone, not on startResp. */
  function AfterResult(s: StreamState, status: Status): StreamState {
    match s
    case Started => if status == Reconfiguration || status == Success then Standby else Started
    case Starting => if status == Success then Started else Standby
    case Suspending => if status == Success then Standby else Disabled
    case _ => s
  }

  function Next(p: Port, step: Step): Port {
    match step
    case SetUp(sessionReady, registered) => if sessionReady then Port(Standby, registered) else p
    case TearDown => p.(inUse := false)
    case RequestStart => if p.inUse && p.state == Standby then p.(state := Starting) else p
    case RequestSuspend => if p.inUse && p.state == Started then p.(state := Suspending) else p
    case Stop => if p.inUse then p.(state := Disabled) else p
    case SetState(to) => p.(state := to)
    case ControlResult(ours, _, status) => if p.inUse && ours then p.(state := AfterResult(p.state, status)) else p
    case SessionChanged(ours) => if p.inUse && ours then p.(state := Disabled) else p
  }

  function Run(steps: seq<Step>): Port {
    if steps == [] then NEW_PORT else Next(Run(steps[..|steps| - 1]), steps[|steps| - 1])
  }

  /** The state after the first i steps. */
  function At(steps: seq<Step>, i: nat): StreamState
    requires i <= |steps|
  {
    Run(steps[..i]).state
  }

  /** The streams set the state by hand only to DISABLED and STANDBY. */
  predicate ByStreams(step: Step) {
    step.SetState? ==> step.to == Disabled || step.to == Standby
  }

  predicate AllByStreams(steps: seq<Step>) {
    forall i :: 0 <= i < |steps| ==> ByStreams(steps[i])
  }

  predicate Enters(steps: seq<Step>, i: nat, s: StreamState)
    requires 0 < i <= |steps|
  {
    At(steps, i - 1) != s && At(steps, i) == s
  }

  lemma {:induction false} AtStep(steps: seq<Step>, i: nat)
    requires 0 < i <= |steps|
    ensures Run(steps[..i]) == Next(Run(steps[..i - 1]), steps[i - 1])
  {
    assert steps[..i][..i - 1] == steps[..i - 1];
  }

  /** How each state is entered and DISABLED is left, in every run. */
  lemma {:induction false} Entries(steps: seq<Step>, i: nat)
    requires AllByStreams(steps) && 0 < i <= |steps|
    ensures Enters(steps, i, Started) ==>
      At(steps, i - 1) == Starting && steps[i - 1].ControlResult? && steps[i - 1].status == Success
    ensures Enters(steps, i, Starting) ==> At(steps, i - 1) == Standby && steps[i - 1] == RequestStart
    ensures Enters(steps, i, Suspending) ==> At(steps, i - 1) == Started && steps[i - 1] == RequestSuspend
    ensures At(steps, i - 1) == Disabled && At(steps, i) != Disabled ==>
      At(steps, i) == Standby && (steps[i - 1].SetUp? || steps[i - 1] == SetState(Standby))
  {
    AtStep(steps, i);
  }

  /** Where a spell of STARTING began: right after STANDBY. */
  lemma {:induction false} StartingSince(steps: seq<Step>, j: nat) returns (l: nat)
    requires AllByStreams(steps) && j <= |steps| && At(steps, j) == Starting
    ensures 0 < l <= j && At(steps, l - 1) == Standby && forall k :: l <= k <= j ==> At(steps, k) == Starting
  {
    assert j > 0 by {
      assert steps[..0] == [];
    }
    Entries(steps, j);
    if At(steps, j - 1) == Starting {
      l := StartingSince(steps, j - 1);
    } else {
      l := j;
    }
  }

  /** Between two entries into STARTED the port passes STANDBY and then STARTING. */
  lemma {:induction false} RestartsThroughStandby(steps: seq<Step>, i: nat, j: nat)
    requires AllByStreams(steps) && 0 < i < j <= |steps|
    requires Enters(steps, i, Started) && Enters(steps, j, Started)
    ensures exists k, l :: i < k < l < j && At(steps, k) == Standby && At(steps, l) == Starting
  {
    Entries(steps, j);
    var l := StartingSince(steps, j - 1);
    assert At(steps, i) == Started;
    assert i < l - 1 < l < j && At(steps, l - 1) == Standby && At(steps, l) == Starting;
  }

  // ------------------------------------------------------------------------
  // What steps do, after any run
  // ------------------------------------------------------------------------

  lemma {:induction false} OneMore(steps: seq<Step>, step: Step)
    ensures Run(steps + [step]) == Next(Run(steps), step)
  {
    assert (steps + [step])[..|steps|] == steps;
  }

  lemma {:induction false} TwoMore(steps: seq<Step>, a: Step, b: Step)
    ensures Run(steps + [a, b]) == Next(Next(Run(steps), a), b)
  {
    OneMore(steps, a);
    assert (steps + [a, b])[..|steps| + 1] == steps + [a];
  }

  /** A start from STANDBY: a success of its own starts the port, anything else takes it back. */
  lemma {:induction false} StartOutcomes(steps: seq<Step>, resp: bool, status: Status)
    requires Run(steps).inUse && Run(steps).state == Standby
    ensures Run(steps + [RequestStart]).state == Starting
    ensures Run(steps + [RequestStart, ControlResult(true, resp, status)]).state ==
      match status case Success => Started case _ => Standby
  {
    OneMore(steps, RequestStart);
    TwoMore(steps, RequestStart, ControlResult(true, resp, status));
  }

  /** A suspension from STARTED: a success of its own brings STANDBY, anything else disables the port. */
  lemma {:induction false} SuspendOutcomes(steps: seq<Step>, resp: bool, status: Status)
    requires Run(steps).inUse && Run(steps).state == Started
    ensures Run(steps + [RequestSuspend]).state == Suspending
    ensures Run(steps + [RequestSuspend, ControlResult(true, resp, status)]).state ==
      match status case Success => Standby case _ => Disabled
  {
    OneMore(steps, RequestSuspend);
    TwoMore(steps, RequestSuspend, ControlResult(true, resp, status));
  }

  /** Without a request: a started port is suspended by a success or a reconfiguration and by nothing else,
      a port at rest takes no result, and a change of session disables it from every state. */
  lemma {:induction false} UnaskedOutcomes(steps: seq<Step>, resp: bool, status: Status)
    requires Run(steps).inUse
    ensures Run(steps).state == Started ==>
      Run(steps + [ControlResult(true, resp, status)]).state == if status.Failure? then Started else Standby
    ensures Run(steps).state == Standby || Run(steps).state == Disabled ==>
      Run(steps + [ControlResult(true, resp, status)]) == Run(steps)
    ensures Run(steps + [SessionChanged(true)]).state == Disabled
    ensures Run(steps + [Stop]).state == Disabled
  {
    OneMore(steps, ControlResult(true, resp, status));
    OneMore(steps, SessionChanged(true));
    OneMore(steps, Stop);
  }

  /** What is not the port's own, or comes while it is not in use, changes nothing; nor does a request out of
      turn. */
  lemma {:induction false} DeafTo(steps: seq<Step>, resp: bool, status: Status)
    ensures Run(steps + [ControlResult(false, resp, status)]) == Run(steps)
    ensures Run(steps + [SessionChanged(false)]) == Run(steps)
    ensures !Run(steps).inUse ==>
      && Run(steps + [ControlResult(true, resp, status)]) == Run(steps)
      && Run(steps + [SessionChanged(true)]) == Run(steps) && Run(steps + [Stop]) == Run(steps)
    ensures Run(steps).state != Standby ==> Run(steps + [RequestStart]) == Run(steps)
    ensures Run(steps).state != Started ==> Run(steps + [RequestSuspend]) == Run(steps)
  {
    OneMore(steps, ControlResult(false, resp, status));
    OneMore(steps, ControlResult(true, resp, status));
    OneMore(steps, SessionChanged(false));
    OneMore(steps, SessionChanged(true));
    OneMore(steps, Stop);
    OneMore(steps, RequestStart);
    OneMore(steps, RequestSuspend);
  }

  // ------------------------------------------------------------------------
  // How a state was come by
  // ------------------------------------------------------------------------

  /** The k-th step took the port from STARTING to STARTED: a Success of its own. */
  predicate BringsStarted(steps: seq<Step>, k: nat)
    requires k < |steps|
  {
    && At(steps, k) == Starting && At(steps, k + 1) == Started
    && steps[k].ControlResult? && steps[k].ours && steps[k].status == Success
  }

  /** A port that was not in STARTED and is now was brought there by such a step. */
  lemma {:induction false} StartedSince(steps: seq<Step>, lo: nat, hi: nat) returns (k: nat)
    requires AllByStreams(steps) && lo <= hi <= |steps|
    requires At(steps, lo) != Started && At(steps, hi) == Started
    ensures lo <= k < hi && BringsStarted(steps, k)
  {
    AtStep(steps, hi);
    if At(steps, hi - 1) == Started {
      k := StartedSince(steps, lo, hi - 1);
    } else {
      Entries(steps, hi);
      k := hi - 1;
    }
  }

  /** The k-th step took the port to STANDBY: a control result of its own, a Success if the port was
      suspending; a hand-made STANDBY; or a set-up. */
  predicate BringsStandby(steps: seq<Step>, k: nat)
    requires k < |steps|
  {
    && At(steps, k) != Standby && At(steps, k + 1) == Standby
    && match steps[k]
       case ControlResult(ours, _, status) => ours && (At(steps, k) == Suspending ==> status == Success)
       case SetState(to) => to == Standby
       case SetUp(sessionReady, _) => sessionReady
       case _ => false
  }

  /** A port that was not at STANDBY and is now was brought there by such a step. */
  lemma {:induction false} StandbySince(steps: seq<Step>, lo: nat, hi: nat) returns (k: nat)
    requires AllByStreams(steps) && lo <= hi <= |steps|
    requires At(steps, lo) != Standby && At(steps, hi) == Standby
    ensures lo <= k < hi && BringsStandby(steps, k)
  {
    AtStep(steps, hi);
    if At(steps, hi - 1) == Standby {
      k := StandbySince(steps, lo, hi - 1);
    } else {
      k := hi - 1;
    }
  }
}
