/** The heap-linked list of active locks, and the two actions that acquire and release through it. */
module LockList {
  import opened Collections
  import opened LockLedger

  class ListNode {
    var next: ListNode?
    var data: Hint
    /** Whether a comparison function is set. */
    var compare: bool

    constructor (next: ListNode?, data: Hint, compare: bool)
      ensures this.next == next && this.data == data && this.compare == compare
    {
      this.next, this.data, this.compare := next, data, compare;
    }
  }

  function NodeAt(chain: seq<ListNode>, i: nat): ListNode? {
    if i < |chain| then chain[i] else null
  }

  /** A head and the nodes behind it, in order: linked one to the next, ending in null, never twice the same. */
  ghost predicate IsList(chain: seq<ListNode>)
    reads chain
  {
    && |chain| > 0 && Distinct(chain)
    && (forall i :: 0 <= i < |chain| ==> chain[i].next == NodeAt(chain, i + 1))
  }

  /** A node right behind the head. */
  function Inserted(chain: seq<ListNode>, node: ListNode): (r: seq<ListNode>)
    requires |chain| > 0
    ensures |r| == |chain| + 1 && r[0] == chain[0] && r[1] == node
    ensures forall i :: 2 <= i < |r| ==> r[i] == chain[i - 1]
  {
    [chain[0], node] + chain[1..]
  }

  function Dropped(chain: seq<ListNode>, at: nat): (r: seq<ListNode>)
    requires at < |chain|
    ensures |r| == |chain| - 1
    ensures forall i :: 0 <= i < |r| ==> r[i] == chain[if i < at then i else i + 1]
  {
    chain[..at] + chain[at + 1..]
  }

  /** The nodes behind the head compare, and hold these locks. */
  ghost predicate Holds(chain: seq<ListNode>, active: seq<Hint>)
    reads chain
  {
    |chain| == |active| + 1 && forall i :: 0 < i < |chain| ==> chain[i].compare && chain[i].data == active[i - 1]
  }

  lemma {:induction false} InsertedHolds(chain: seq<ListNode>, active: seq<Hint>, node: ListNode)
    requires Holds(chain, active) && node.compare
    ensures Holds(Inserted(chain, node), [node.data] + active)
  {
    var c := Inserted(chain, node);
    forall i | 1 < i < |c|
      ensures c[i] == chain[i - 1]
    {
    }
  }

  lemma {:induction false} DroppedHolds(chain: seq<ListNode>, active: seq<Hint>, i: nat)
    requires Holds(chain, active) && i < |active|
    ensures Holds(Dropped(chain, i + 1), Without(active, i))
  {
    var c := Dropped(chain, i + 1);
    forall j | 0 < j < |c|
      ensures c[j] == chain[if j < i + 1 then j else j + 1]
    {
    }
  }

  /** malloc, which may fail, and how often it has. */
  class Heap {
    ghost var shortages: nat

    constructor ()
      ensures shortages == 0
    {
      shortages := 0;
    }

    method Reserve() returns (enough: bool)
      modifies this
      ensures shortages == old(shortages) + if enough then 0 else 1
    {
      enough := *;
      if !enough {
        shortages := shortages + 1;
      }
    }

    method NewNode(next: ListNode?, data: Hint, compare: bool) returns (node: ListNode?)
      modifies this
      ensures shortages == old(shortages) + if node != null then 0 else 1
      ensures node != null ==> fresh(node) && node.next == next && node.data == data && node.compare == compare
    {
      node := null;
      var enough := Reserve();
      if enough {
        node := new ListNode(next, data, compare);
      }
    }
  }

  /** The new node goes right behind the head and takes over its comparison function. */
  method AddListNode(heap: Heap, head: ListNode?, data: Hint, ghost chain: seq<ListNode>) returns (node: ListNode?)
    requires head != null ==> IsList(chain) && chain[0] == head
    modifies heap, if head == null then {} else {head}
    ensures head != null ==> heap.shortages == old(heap.shortages) + if node != null then 0 else 1
    ensures head == null ==> node == null && heap.shortages == old(heap.shortages)
    ensures head != null ==> head.compare == old(head.compare) && head.data == old(head.data)
    ensures head != null && node == null ==> head.next == old(head.next)
    ensures head != null && node != null ==>
      fresh(node) && node.data == data && node.compare == head.compare && IsList(Inserted(chain, node))
  {
    if head == null {
      return null;
    }
    node := heap.NewNode(head.next, data, head.compare);
    if node == null {
      return null;
    }
    head.next := node;
  }

  /** The node is unlinked wherever it stands; one that is not in the list changes nothing. */
  method RemoveListNode(head: ListNode?, del: ListNode?, ghost chain: seq<ListNode>) returns (r: int)
    requires head != null ==> IsList(chain) && chain[0] == head
    modifies chain
    ensures head == null || (forall i :: 0 < i < |chain| ==> chain[i] != del) ==>
      r == -1 && forall i :: 0 <= i < |chain| ==> chain[i].next == old(chain[i].next)
    ensures head != null ==> forall i :: 0 < i < |chain| && chain[i] == del ==> r == 0 && IsList(Dropped(chain, i))
    ensures forall i :: 0 <= i < |chain| ==>
      chain[i].data == old(chain[i].data) && chain[i].compare == old(chain[i].compare)
  {
    if head == null || head.next == null {
      return -1;
    }
    var current, saved := head.next, head;
    ghost var k := 1;
    while current != null && current != del
      invariant 1 <= k <= |chain| && saved == chain[k - 1] && current == NodeAt(chain, k)
      invariant forall j :: 0 < j < k ==> chain[j] != del
      decreases |chain| - k
    {
      saved := current;
      current := current.next;
      k := k + 1;
    }
    if current == null {
      return -1;
    }
    Unlink(saved, current, chain, k);
    return 0;
  }

  method Unlink(saved: ListNode, current: ListNode, ghost chain: seq<ListNode>, ghost k: nat)
    requires IsList(chain) && 0 < k < |chain| && saved == chain[k - 1] && current == chain[k]
    modifies saved
    ensures IsList(Dropped(chain, k))
    ensures saved.data == old(saved.data) && saved.compare == old(saved.compare)
  {
    saved.next := current.next;
    ghost var now := Dropped(chain, k);
    forall i | 0 <= i < |now|
      ensures now[i].next == NodeAt(now, i + 1)
    {
      assert now[i] == chain[if i < k then i else i + 1];
    }
  }

  predicate Matches(node: ListNode, hintId: int)
    reads node
  {
    node.compare && node.data.hintId == hintId
  }

  /** The first node behind the head that compares equal, and where it stands. */
  method FindNode(head: ListNode?, hintId: int, ghost chain: seq<ListNode>) returns (node: ListNode?, ghost at: nat)
    requires head != null ==> IsList(chain) && chain[0] == head
    ensures head == null ==> node == null
    ensures head != null ==> 0 < at <= |chain| && node == NodeAt(chain, at) && (node != null ==> Matches(node, hintId))
    ensures head != null ==> forall j :: 0 < j < at ==> !Matches(chain[j], hintId)
  {
    at := 1;
    if head == null {
      return null, at;
    }
    node := head.next;
    while node != null
      invariant 1 <= at <= |chain| && node == NodeAt(chain, at)
      invariant forall j :: 0 < j < at ==> !Matches(chain[j], hintId)
      decreases |chain| - at
    {
      if node.compare {
        if node.data.hintId == hintId {
          return;
        }
      }
      node := node.next;
      at := at + 1;
    }
  }

  lemma {:induction false} RunSnoc(canRelease: bool, ops: seq<Op>, op: Op)
    ensures Run(canRelease, ops + [op]) == Step(canRelease, Run(canRelease, ops), op)
  {
    assert (ops + [op])[..|ops|] == ops;
  }

  lemma {:induction false} FirstOfIs(active: seq<Hint>, hintId: int, i: nat)
    requires i <= |active| && (i < |active| ==> active[i].hintId == hintId)
    requires forall j :: 0 <= j < i ==> active[j].hintId != hintId
    ensures FirstOf(active, hintId) == i
  {
  }

  class PowerHints {
    const heap: Heap
    const head: ListNode
    const qcopt: bool
    const canAcquire: bool
    const canRelease: bool
    /** The head and the nodes behind it, the locks those nodes hold, and the handles acquired and
        released so far. */
    ghost var chain: seq<ListNode>
    ghost var active: seq<Hint>
    ghost var acquired: multiset<int>
    ghost var released: multiset<int>
    /** The actions so far. */
    ghost var ops: seq<Op>

    /** The chain is a list of just the active locks. */
    ghost predicate Linked()
      reads this`chain, this`active, chain
    {
      IsList(chain) && chain[0] == head && Holds(chain, active)
    }

    /** Also, the books are those of all the actions so far. */
    ghost predicate Valid()
      reads this, chain
    {
      Linked() && State() == Run(canRelease, ops)
    }

    ghost function State(): Ledger
      reads this
    {
      Ledger(active, acquired, released)
    }

    constructor (qcopt: bool, canAcquire: bool, canRelease: bool)
      ensures Valid() && ops == [] && fresh(head) && fresh(heap)
      ensures this.qcopt == qcopt && this.canAcquire == canAcquire && this.canRelease == canRelease
    {
      var first := new ListNode(null, Hint(0, 0), false);
      head := first;
      heap := new Heap();
      this.qcopt, this.canAcquire, this.canRelease := qcopt, canAcquire, canRelease;
      chain, active := [first], [];
      acquired, released, ops := multiset{}, multiset{}, [];
    }

    ghost method NoteAcquired(handle: int)
      modifies this`acquired
      ensures acquired == old(acquired) + multiset{handle}
    {
      acquired := acquired + multiset{handle};
    }

    method PerfLockRel(handle: int)
      modifies this`released
      ensures released == old(released) + multiset{handle}
    {
      released := released + multiset{handle};
    }

    /** A new node for the lock, right behind the head, unless there is no memory. */
    method Track(hint: Hint) returns (ok: bool)
      requires Linked()
      modifies heap, this`chain, this`active, head
      ensures Linked()
      ensures active == if ok then [hint] + old(active) else old(active)
      ensures heap.shortages == old(heap.shortages) + if ok then 0 else 1
    {
      var enough := heap.Reserve();
      ok := false;
      if enough {
        if !head.compare {
          SetCompare();
        }
        ok := AddBehindHead(hint);
      }
    }

    method SetCompare()
      requires Linked()
      modifies head`compare
      ensures Linked() && head.compare
    {
      head.compare := true;
    }

    method AddBehindHead(hint: Hint) returns (ok: bool)
      requires Linked() && head.compare
      modifies heap, this`chain, this`active, head
      ensures Linked()
      ensures active == if ok then [hint] + old(active) else old(active)
      ensures heap.shortages == old(heap.shortages) + if ok then 0 else 1
    {
      var node := AddListNode(heap, head, hint, chain);
      ok := node != null;
      assert Holds(chain, active);
      if ok {
        InsertedHolds(chain, active, node);
        chain, active := Inserted(chain, node), [hint] + active;
      }
    }

    /** One step of the books, whatever memory and library offer: the lock that came back is put on the
        list, given back exactly when malloc failed, or lost when there is no release function either. */
    method PerformHintAction(hintId: int, handle: int) returns (ghost tracked: bool)
      requires Valid()
      modifies this, heap, head
      ensures Valid()
      ensures !(qcopt && canAcquire) ==> State() == old(State()) && ops == old(ops)
      ensures tracked <==> qcopt && canAcquire && handle != NO_LOCK && heap.shortages == old(heap.shortages)
      ensures qcopt && canAcquire ==> ops == old(ops) + [Perform(hintId, handle, tracked)]
      ensures qcopt && canAcquire ==> State() == Step(canRelease, old(State()), Perform(hintId, handle, tracked))
    {
      tracked := false;
      if qcopt && canAcquire {
        tracked := Acquire(hintId, handle);
        NoteAction(Perform(hintId, handle, tracked));
      }
    }

    method Acquire(hintId: int, handle: int) returns (ghost tracked: bool)
      requires Linked()
      modifies heap, this`chain, this`active, this`acquired, this`released, head
      ensures Linked() && State() == Step(canRelease, old(State()), Perform(hintId, handle, tracked))
      ensures tracked <==> handle != NO_LOCK && heap.shortages == old(heap.shortages)
    {
      tracked := false;
      if handle != NO_LOCK {
        NoteAcquired(handle);
        var added := Track(Hint(hintId, handle));
        tracked := added;
        if !added && canRelease {
          PerfLockRel(handle);
        }
      }
    }

    ghost method NoteAction(op: Op)
      requires Linked() && State() == Step(canRelease, Run(canRelease, ops), op)
      modifies this`ops
      ensures Valid() && ops == old(ops) + [op]
    {
      RunSnoc(canRelease, ops, op);
      ops := ops + [op];
    }

    method Find(hintId: int) returns (found: ListNode?, ghost i: nat)
      requires Linked()
      ensures i == FirstOf(active, hintId)
      ensures if i < |active| then found == chain[i + 1] && found.data == active[i] else found == null
    {
      ghost var at: nat;
      found, at := FindNode(head, hintId, chain);
      forall j | 0 <= j < at - 1
        ensures active[j].hintId != hintId
      {
        assert !Matches(chain[j + 1], hintId);
      }
      FirstOfIs(active, hintId, at - 1);
      i := at - 1;
    }

    method Drop(found: ListNode, ghost i: nat)
      requires Linked() && i < |active| && found == chain[i + 1]
      modifies this`chain, this`active, chain
      ensures Linked()
      ensures active == Without(old(active), i)
    {
      var _ := RemoveListNode(head, found, chain);
      assert Holds(chain, active);
      DroppedHolds(chain, active, i);
      chain, active := Dropped(chain, i + 1), Without(active, i);
    }

    /** The latest lock of the hint is released and its node unlinked, the others keep their order;
        an unknown hint changes nothing. */
    method UndoHintAction(hintId: int)
      requires Valid()
      modifies this, chain
      ensures Valid()
      ensures qcopt ==> ops == old(ops) + [Undo(hintId)]
      ensures State() == if qcopt then Step(canRelease, old(State()), Undo(hintId)) else old(State())
    {
      if qcopt {
        if canRelease {
          ReleaseFirst(hintId);
        }
        NoteAction(Undo(hintId));
      }
    }

    method ReleaseFirst(hintId: int)
      requires Linked()
      modifies this`chain, this`active, this`released, chain
      ensures Linked()
      ensures var was, i := old(active), FirstOf(old(active), hintId);
        if i < |was| then active == Without(was, i) && released == old(released) + multiset{was[i].handle}
        else active == was && released == old(released)
    {
      var found;
      ghost var i;
      found, i := Find(hintId);
      if found != null {
        ReleaseNode(found, i);
      }
    }

    method ReleaseNode(found: ListNode, ghost i: nat)
      requires Linked() && i < |active| && found == chain[i + 1] && found.data == active[i]
      modifies this`chain, this`active, this`released, chain
      ensures Linked() && active == Without(old(active), i)
      ensures released == old(released) + multiset{old(active)[i].handle}
    {
      PerfLockRel(found.data.handle);
      Drop(found, i);
    }
  }
}
