/** The reference-counted power hints: one table entry per hint, one lock per entry that is in use. */
module HintCounts {

  datatype Entry = Entry(handle: int, refCount: int)

  const UNUSED: Entry := Entry(0, 0)

  /** The lock an entry holds. */
  function LockOf(e: Entry): multiset<int> {
    if e.handle > 0 then multiset{e.handle} else multiset{}
  }

  function Locks(entries: seq<Entry>): multiset<int> {
    if entries == [] then multiset{} else Locks(entries[..|entries| - 1]) + LockOf(entries[|entries| - 1])
  }

  predicate Counted(entries: seq<Entry>) {
    forall i :: 0 <= i < |entries| ==> entries[i].refCount >= 0 && (entries[i].handle > 0 <==> entries[i].refCount > 0)
  }

  lemma {:induction false} Shuffle(a: multiset<int>, b: multiset<int>, x: multiset<int>, y: multiset<int>,
                                   last: multiset<int>)
    requires a + x == b + y
    ensures (a + last) + x == (b + last) + y
  {
    assert (a + last) + x == (a + x) + last;
  }

  lemma {:induction false} LocksUpdate(entries: seq<Entry>, i: nat, e: Entry)
    requires i < |entries|
    ensures Locks(entries[i := e]) + LockOf(entries[i]) == Locks(entries) + LockOf(e)
  {
    var n := |entries| - 1;
    if i < n {
      LocksUpdate(entries[..n], i, e);
      assert entries[i := e][..n] == entries[..n][i := e];
      Shuffle(Locks(entries[..n][i := e]), Locks(entries[..n]), LockOf(entries[i]), LockOf(e), LockOf(entries[n]));
    } else {
      assert entries[i := e][..n] == entries[..n];
    }
  }

  /** What the books need when one entry changes: what it held and what was asked for is what it holds
      and what was released. */
  lemma {:induction false} BooksKept(acquired: multiset<int>, released: multiset<int>, before: seq<Entry>,
                                     hint: nat, e: Entry,
                                     asked: multiset<int>, given: multiset<int>)
    requires hint < |before| && acquired == released + Locks(before)
    requires LockOf(before[hint]) + asked == LockOf(e) + given
    ensures acquired + asked == (released + given) + Locks(before[hint := e])
  {
    LocksUpdate(before, hint, e);
    Cancel(Locks(before), Locks(before[hint := e]), LockOf(before[hint]), LockOf(e), asked, given);
    assert acquired + asked == released + (Locks(before) + asked);
    assert released + (given + Locks(before[hint := e])) == (released + given) + Locks(before[hint := e]);
  }

  lemma {:induction false} Cancel(l0: multiset<int>, l1: multiset<int>, b: multiset<int>, n: multiset<int>,
                                  asked: multiset<int>, given: multiset<int>)
    requires l1 + b == l0 + n && b + asked == n + given
    ensures l0 + asked == given + l1
  {
    forall x
      ensures (l0 + asked)[x] == (given + l1)[x]
    {
      assert (l1 + b)[x] == (l0 + n)[x] && (b + asked)[x] == (n + given)[x];
    }
  }

  /** What a hint makes of its entry, given the answer to a request for a lock. */
  function Hinted(e: Entry, enable: bool, answer: int): Entry {
    if enable then
      var handle := if e.refCount == 0 then answer else e.handle;
      Entry(handle, if handle > 0 then e.refCount + 1 else e.refCount)
    else if e.handle > 0 then Entry(if e.refCount == 1 then 0 else e.handle, e.refCount - 1)
    else e
  }

  /** The lock a hint newly holds: only a first enable asks for one. */
  function Asked(e: Entry, enable: bool, answer: int): multiset<int> {
    if enable && e.refCount == 0 && answer > 0 then multiset{answer} else multiset{}
  }

  /** The lock a hint gives back: only the last disable does. */
  function Given(e: Entry, enable: bool): multiset<int> {
    if !enable && e.refCount == 1 then multiset{e.handle} else multiset{}
  }

  /** A hint keeps handles and counts in step, and the books balanced. */
  lemma {:induction false} HintKeeps(entries: seq<Entry>, hint: nat, enable: bool, answer: int,
                                     acquired: multiset<int>, released: multiset<int>)
    requires Counted(entries) && hint < |entries| && acquired == released + Locks(entries)
    ensures var e := entries[hint];
      var now := entries[hint := Hinted(e, enable, answer)];
      && Counted(now) && acquired + Asked(e, enable, answer) == (released + Given(e, enable)) + Locks(now)
  {
    var e := entries[hint];
    BooksKept(acquired, released, entries, hint, Hinted(e, enable, answer), Asked(e, enable, answer), Given(e, enable));
  }

  // ------------------------------------------------------------------------
  // Runs of one hint
  // ------------------------------------------------------------------------

  datatype Call = Call(enable: bool, answer: int)

  /** An unused entry after calls of its hint, the locks asked for by then and those given back. */
  function After(calls: seq<Call>): (Entry, multiset<int>, multiset<int>) {
    if calls == [] then (UNUSED, multiset{}, multiset{}) else
      var (e, asked, given) := After(calls[..|calls| - 1]);
      var call := calls[|calls| - 1];
      (Hinted(e, call.enable, call.answer), asked + Asked(e, call.enable, call.answer), given + Given(e, call.enable))
  }

  /** By how much the enables outnumber the disables. */
  function Excess(calls: seq<Call>): int {
    if calls == [] then 0 else Excess(calls[..|calls| - 1]) + if calls[|calls| - 1].enable then 1 else -1
  }

  /** While enables outnumber disables the first enable's lock is held, it is the only one, and nothing has
      been given back. */
  lemma {:induction false} HeldMeanwhile(calls: seq<Call>)
    requires calls != [] && calls[0].enable && calls[0].answer > 0
    requires forall k :: 0 < k <= |calls| ==> Excess(calls[..k]) > 0
    ensures After(calls) == (Entry(calls[0].answer, Excess(calls)), multiset{calls[0].answer}, multiset{})
  {
    var init := calls[..|calls| - 1];
    assert calls[..|calls|] == calls;
    var x := multiset{calls[0].answer};
    assert multiset{} + x == x && x + multiset{} == x && x - x == multiset{} + multiset{};
    if init == [] {
      assert Excess(init) == 0 && After(init) == (UNUSED, multiset{}, multiset{});
    } else {
      assert forall k :: 0 < k <= |init| ==> init[..k] == calls[..k];
      HeldMeanwhile(init);
    }
  }

  /** The disable that makes up for the last enable gives that lock back. */
  lemma {:induction false} LastDisableReleases(calls: seq<Call>, answer: int)
    requires calls != [] && calls[0].enable && calls[0].answer > 0 && Excess(calls) == 1
    requires forall k :: 0 < k <= |calls| ==> Excess(calls[..k]) > 0
    ensures After(calls + [Call(false, answer)]) == (UNUSED, multiset{calls[0].answer}, multiset{calls[0].answer})
  {
    HeldMeanwhile(calls);
    var x := multiset{calls[0].answer};
    assert multiset{} + x == x && x + multiset{} == x && x - x == multiset{} + multiset{};
    assert (calls + [Call(false, answer)])[..|calls|] == calls;
  }

  /** A disable of an unused hint, and an enable that gets no lock, count nothing. */
  lemma {:induction false} NothingHeld(handle: int, answer: int)
    requires handle <= 0
    ensures Hinted(Entry(handle, 0), false, answer) == Entry(handle, 0)
    ensures answer <= 0 ==> Hinted(Entry(handle, 0), true, answer).refCount == 0
  {
  }

  lemma {:induction false} NoLocks(entries: seq<Entry>)
    requires forall i :: 0 <= i < |entries| ==> entries[i] == UNUSED
    ensures Locks(entries) == multiset{}
  {
    if entries != [] {
      NoLocks(entries[..|entries| - 1]);
    }
  }

  class PowerHal {
    const handles: array<Entry>
    ghost var acquired: multiset<int>
    ghost var released: multiset<int>

    /** A handle is positive exactly while its count is, and every lock acquired is held or was released. */
    ghost predicate Valid()
      reads this, handles
    {
      Counted(handles[..]) && acquired == released + Locks(handles[..])
    }

    constructor (numHints: nat)
      ensures Valid() && fresh(handles) && handles.Length == numHints && acquired == released == multiset{}
    {
      handles := new Entry[numHints](_ => UNUSED);
      acquired, released := multiset{}, multiset{};
      new;
      NoLocks(handles[..]);
    }

    method ReleaseRequest(handle: int)
      modifies this`released
      ensures released == old(released) + multiset{handle}
    {
      released := released + multiset{handle};
    }

    ghost method NoteAcquired(handle: int)
      modifies this`acquired
      ensures acquired == old(acquired) + if handle > 0 then multiset{handle} else multiset{}
    {
      if handle > 0 {
        acquired := acquired + multiset{handle};
      }
    }

    /** The counted hints' branch of power_hint. */
    method Count(hint: nat, enable: bool, answer: int)
      requires hint < handles.Length && handles[hint].refCount >= 0
      requires (handles[hint].handle > 0 <==> handles[hint].refCount > 0)
      modifies this, handles
      ensures handles[..] == old(handles[..])[hint := Hinted(old(handles[hint]), enable, answer)]
      ensures acquired == old(acquired) + Asked(old(handles[hint]), enable, answer)
      ensures released == old(released) + Given(old(handles[hint]), enable)
    {
      if enable {
        if handles[hint].refCount == 0 {
          NoteAcquired(answer);
          handles[hint] := handles[hint].(handle := answer);
        }
        if handles[hint].handle > 0 {
          handles[hint] := handles[hint].(refCount := handles[hint].refCount + 1);
        }
      } else {
        if handles[hint].handle > 0 {
          handles[hint] := handles[hint].(refCount := handles[hint].refCount - 1);
          if handles[hint].refCount == 0 {
            ReleaseRequest(handles[hint].handle);
            handles[hint] := handles[hint].(handle := 0);
          }
        }
      }
    }

    /** Every hint keeps the invariant: a handle is positive while its count is, and the books balance. */
    method PowerHint(hint: nat, enable: bool, answer: int)
      requires Valid() && hint < handles.Length
      modifies this, handles
      ensures Valid()
      ensures handles[..] == old(handles[..])[hint := Hinted(old(handles[hint]), enable, answer)]
      ensures acquired == old(acquired) + Asked(old(handles[hint]), enable, answer)
      ensures released == old(released) + Given(old(handles[hint]), enable)
    {
      HintKeeps(handles[..], hint, enable, answer, acquired, released);
      Count(hint, enable, answer);
    }
  }
}
