/** What holding and releasing performance locks means, apart from how the list is kept. */
module LockLedger {

  /** A held lock, filed under the hint that asked for it. */
  datatype Hint = Hint(hintId: int, handle: int)

  /** The active locks, latest first, and every handle acquired and released so far. */
  datatype Ledger = Ledger(active: seq<Hint>, acquired: multiset<int>, released: multiset<int>)

  const NO_LOCK: int := -1
  const EMPTY: Ledger := Ledger([], multiset{}, multiset{})

  /** Asking for a lock: the handle that came back, and whether it could be put on the list. */
  datatype Op = Perform(hintId: int, handle: int, tracked: bool) | Undo(hintId: int)

  /** The first lock of a hint, or the list's length. */
  function FirstOf(active: seq<Hint>, hintId: int): (i: nat)
    ensures i <= |active|
    ensures i < |active| ==> active[i].hintId == hintId
    ensures forall j :: 0 <= j < i ==> active[j].hintId != hintId
  {
    if active == [] || active[0].hintId == hintId then 0 else FirstOf(active[1..], hintId) + 1
  }

  function Without(active: seq<Hint>, i: nat): seq<Hint>
    requires i < |active|
  {
    active[..i] + active[i + 1..]
  }

  /** canRelease says whether the library offers a release function. Without it a lock that cannot be
      put on the list stays acquired, and an undo does nothing. */
  function Step(canRelease: bool, l: Ledger, op: Op): Ledger {
    match op
    case Perform(hintId, handle, tracked) =>
      if handle == NO_LOCK then l
      else if tracked then Ledger([Hint(hintId, handle)] + l.active, l.acquired + multiset{handle}, l.released)
      else Ledger(l.active, l.acquired + multiset{handle},
                  if canRelease then l.released + multiset{handle} else l.released)
    case Undo(hintId) =>
      var i := FirstOf(l.active, hintId);
      if i == |l.active| || !canRelease then l
      else Ledger(Without(l.active, i), l.acquired, l.released + multiset{l.active[i].handle})
  }

  function Run(canRelease: bool, ops: seq<Op>): Ledger {
    if ops == [] then EMPTY else Step(canRelease, Run(canRelease, ops[..|ops| - 1]), ops[|ops| - 1])
  }

  function Handles(active: seq<Hint>): multiset<int> {
    if active == [] then multiset{} else multiset{active[0].handle} + Handles(active[1..])
  }

  /** Every lock acquired is active once or was released once. */
  predicate Balanced(l: Ledger) {
    l.acquired == l.released + Handles(l.active)
  }

  lemma {:induction false} WithoutTail(active: seq<Hint>, i: nat)
    requires i < |active|
    ensures if i == 0 then Without(active, 0) == active[1..]
            else |Without(active, i)| > 0 && Without(active, i)[0] == active[0]
                 && Without(active, i)[1..] == Without(active[1..], i - 1)
  {
  }

  lemma {:induction false} HandlesWithout(active: seq<Hint>, i: nat)
    requires i < |active|
    ensures Handles(active) == Handles(Without(active, i)) + multiset{active[i].handle}
  {
    WithoutTail(active, i);
    if i > 0 {
      HandlesWithout(active[1..], i - 1);
    }
  }

  /** The lock an operation loses: acquired, neither on the list nor given back. */
  function LostBy(canRelease: bool, op: Op): multiset<int> {
    if !canRelease && op.Perform? && op.handle != NO_LOCK && !op.tracked then multiset{op.handle} else multiset{}
  }

  function Lost(canRelease: bool, ops: seq<Op>): multiset<int> {
    if ops == [] then multiset{} else Lost(canRelease, ops[..|ops| - 1]) + LostBy(canRelease, ops[|ops| - 1])
  }

  lemma {:induction false} UndoLoses(l: Ledger, i: nat, lost: multiset<int>)
    requires i < |l.active| && l.acquired == l.released + Handles(l.active) + lost
    ensures l.acquired == (l.released + multiset{l.active[i].handle}) + Handles(Without(l.active, i)) + lost
  {
    HandlesWithout(l.active, i);
    assert l.released + (Handles(Without(l.active, i)) + multiset{l.active[i].handle})
        == (l.released + multiset{l.active[i].handle}) + Handles(Without(l.active, i));
  }

  lemma {:induction false} PerformLoses(canRelease: bool, l: Ledger, op: Op, lost: multiset<int>)
    requires op.Perform? && l.acquired == l.released + Handles(l.active) + lost
    ensures var r := Step(canRelease, l, op);
      r.acquired == r.released + Handles(r.active) + (lost + LostBy(canRelease, op))
  {
    assert ([Hint(op.hintId, op.handle)] + l.active)[1..] == l.active;
    var m := multiset{op.handle};
    assert l.acquired + m == l.released + (m + Handles(l.active)) + lost;
    assert l.acquired + m == (l.released + m) + Handles(l.active) + lost;
    assert l.acquired + m == l.released + Handles(l.active) + (lost + m);
  }

  lemma {:induction false} StepLoses(canRelease: bool, l: Ledger, op: Op, lost: multiset<int>)
    requires l.acquired == l.released + Handles(l.active) + lost
    ensures var r := Step(canRelease, l, op);
      r.acquired == r.released + Handles(r.active) + (lost + LostBy(canRelease, op))
  {
    if op.Perform? {
      PerformLoses(canRelease, l, op, lost);
    } else {
      assert lost + LostBy(canRelease, op) == lost;
      if FirstOf(l.active, op.hintId) < |l.active| {
        UndoLoses(l, FirstOf(l.active, op.hintId), lost);
      }
    }
  }

  /** Conservation, over every run: what was acquired is active, released, or lost. */
  lemma {:induction false} RunConserves(canRelease: bool, ops: seq<Op>)
    ensures var l := Run(canRelease, ops); l.acquired == l.released + Handles(l.active) + Lost(canRelease, ops)
  {
    if ops != [] {
      RunConserves(canRelease, ops[..|ops| - 1]);
      StepLoses(canRelease, Run(canRelease, ops[..|ops| - 1]), ops[|ops| - 1], Lost(canRelease, ops[..|ops| - 1]));
    }
  }

  /** Every lock that came back found its place on the list. */
  predicate AllTracked(ops: seq<Op>) {
    forall i :: 0 <= i < |ops| && ops[i].Perform? && ops[i].handle != NO_LOCK ==> ops[i].tracked
  }

  lemma {:induction false} AllTrackedSnoc(init: seq<Op>, op: Op)
    ensures AllTracked(init + [op]) <==> AllTracked(init) && (op.Perform? && op.handle != NO_LOCK ==> op.tracked)
  {
    var ops := init + [op];
    assert ops[|init|] == op && forall i :: 0 <= i < |init| ==> ops[i] == init[i];
  }

  lemma {:induction false} NothingLostIff(canRelease: bool, ops: seq<Op>)
    ensures Lost(canRelease, ops) == multiset{} <==> canRelease || AllTracked(ops)
  {
    if ops != [] {
      var init, op := ops[..|ops| - 1], ops[|ops| - 1];
      NothingLostIff(canRelease, init);
      AllTrackedSnoc(init, op);
      assert ops == init + [op];
      if LostBy(canRelease, op) != multiset{} {
        assert Lost(canRelease, ops)[op.handle] > 0;
      }
      if Lost(canRelease, ops) == multiset{} {
        assert Lost(canRelease, init) <= Lost(canRelease, ops) && LostBy(canRelease, op) <= Lost(canRelease, ops);
      }
    }
  }

  lemma {:induction false} SurplusBreaksEven(acquired: multiset<int>, kept: multiset<int>, lost: multiset<int>)
    requires acquired == kept + lost
    ensures acquired == kept <==> lost == multiset{}
  {
    assert |acquired| == |kept| + |lost|;
  }

  /** The books of a run balance exactly when there is a release function or every lock was tracked. */
  lemma {:induction false} LostWithoutRelease(canRelease: bool, ops: seq<Op>)
    ensures Balanced(Run(canRelease, ops)) <==> canRelease || AllTracked(ops)
  {
    var l := Run(canRelease, ops);
    RunConserves(canRelease, ops);
    NothingLostIff(canRelease, ops);
    SurplusBreaksEven(l.acquired, l.released + Handles(l.active), Lost(canRelease, ops));
  }

  /** Every run conserves the locks exactly when there is a release function: without one, a single lock
      that finds no memory is a run that does not. */
  lemma {:induction false} RunBalanced(canRelease: bool)
    ensures (forall ops :: Balanced(Run(canRelease, ops))) <==> canRelease
  {
    forall ops
      ensures canRelease ==> Balanced(Run(canRelease, ops))
    {
      LostWithoutRelease(canRelease, ops);
    }
    var untracked := [Perform(0, 1, false)];
    LostWithoutRelease(canRelease, untracked);
    assert !AllTracked(untracked) by {
      assert untracked[0].handle != NO_LOCK;
    }
  }

  // ------------------------------------------------------------------------
  // Each hint has a stack of its own
  // ------------------------------------------------------------------------

  /** The handles of one hint's active locks, latest first. */
  function Of(active: seq<Hint>, hintId: int): seq<int> {
    if active == [] then []
    else (if active[0].hintId == hintId then [active[0].handle] else []) + Of(active[1..], hintId)
  }

  /** A stack driven by one hint's operations, deaf to all others. */
  function StackOf(canRelease: bool, ops: seq<Op>, hintId: int): seq<int> {
    if ops == [] then [] else
      var before := StackOf(canRelease, ops[..|ops| - 1], hintId);
      match ops[|ops| - 1]
      case Perform(id, handle, tracked) =>
        if id == hintId && handle != NO_LOCK && tracked then [handle] + before else before
      case Undo(id) => if id == hintId && canRelease && before != [] then before[1..] else before
  }

  lemma {:induction false} OfWithoutFirst(active: seq<Hint>, hintId: int, other: int)
    requires FirstOf(active, hintId) < |active|
    ensures var i := FirstOf(active, hintId);
      if other == hintId then Of(active, other) == [active[i].handle] + Of(Without(active, i), other)
      else Of(Without(active, i), other) == Of(active, other)
  {
    var i := FirstOf(active, hintId);
    WithoutTail(active, i);
    if i > 0 {
      OfWithoutFirst(active[1..], hintId, other);
    }
  }

  lemma {:induction false} NoneOf(active: seq<Hint>, hintId: int)
    ensures Of(active, hintId) == [] <==> FirstOf(active, hintId) == |active|
  {
    if active != [] {
      NoneOf(active[1..], hintId);
    }
  }

  /** Over every run the locks of a hint are that hint's own stack: an undo releases its latest lock. */
  lemma {:induction false} RunIsStack(canRelease: bool, ops: seq<Op>, hintId: int)
    ensures Of(Run(canRelease, ops).active, hintId) == StackOf(canRelease, ops, hintId)
  {
    if ops != [] {
      var l, op := Run(canRelease, ops[..|ops| - 1]), ops[|ops| - 1];
      RunIsStack(canRelease, ops[..|ops| - 1], hintId);
      match op {
        case Perform(id, handle, tracked) =>
          assert ([Hint(id, handle)] + l.active)[1..] == l.active;
        case Undo(id) =>
          NoneOf(l.active, id);
          if FirstOf(l.active, id) < |l.active| {
            OfWithoutFirst(l.active, id, hintId);
          }
      }
    }
  }

  /** An undo releases the handle on top of its hint's stack, and nothing when the stack is empty. */
  lemma {:induction false} UndoReleasesTop(ops: seq<Op>, hintId: int)
    ensures var stack := StackOf(true, ops, hintId);
      Run(true, ops + [Undo(hintId)]).released == Run(true, ops).released
        + (if stack == [] then multiset{} else multiset{stack[0]})
  {
    var active := Run(true, ops).active;
    assert (ops + [Undo(hintId)])[..|ops|] == ops;
    RunIsStack(true, ops, hintId);
    NoneOf(active, hintId);
    if FirstOf(active, hintId) < |active| {
      OfWithoutFirst(active, hintId, hintId);
    }
  }
}
