/** The input filter itself: an array of sixteen mutable touch positions that is searched, updated
    and listed in place, proved to compute what TouchMerger says. */
module TouchFilter {
  import opened Collections
  import opened TouchTable
  import opened TouchMerger
  import opened TouchRuns

  class Pos {
    var touchId: int
    var coords: Coords

    constructor ()
      ensures Value() == FREE
    {
      touchId := INVALID_POINTER_ID;
      coords := Coords(0.0, 0.0);
    }

    constructor At(coords: Coords)
      ensures Value() == Slot(INVALID_POINTER_ID, coords)
    {
      touchId := INVALID_POINTER_ID;
      this.coords := coords;
    }

    function Value(): Slot
      reads this
    {
      Slot(touchId, coords)
    }

    predicate IsValid()
      reads this
    {
      touchId != INVALID_POINTER_ID
    }

    method Reset()
      modifies this
      ensures Value() == FREE
    {
      touchId := INVALID_POINTER_ID;
      coords := Coords(0.0, 0.0);
    }

    method SetPos(pos: Pos)
      modifies this
      ensures Value() == old(pos.Value())
    {
      touchId := pos.touchId;
      coords := pos.coords;
    }
  }

  function Values(positions: seq<Pos>): (r: seq<Slot>)
    reads positions
    ensures |r| == |positions|
    ensures forall i :: 0 <= i < |r| ==> r[i] == positions[i].Value()
  {
    seq(|positions|, i requires 0 <= i < |positions| reads positions => positions[i].Value())
  }

  lemma {:induction false} FirstFreeIs(t: seq<Slot>, k: nat)
    requires k < |t| && !t[k].Held() && forall j :: 0 <= j < k ==> t[j].Held()
    ensures FirstFree(t, 0) == k
  {
  }

  lemma {:induction false} NthHeldStep(t: seq<Slot>, n: nat, i: nat)
    requires i < |t|
    ensures NthHeld(t, n, i) ==
      if !t[i].Held() then NthHeld(t, n, i + 1) else if n == 0 then i else NthHeld(t, n - 1, i + 1)
  {
  }

  /** One position set, the others as they were: one slot of the table updated. */
  lemma {:induction false} OneUpdated(positions: seq<Pos>, was: seq<Slot>, k: nat, s: Slot)
    requires k < |positions| == |was| && positions[k].Value() == s
    requires forall i :: 0 <= i < |positions| && i != k ==> positions[i].Value() == was[i]
    ensures Values(positions) == was[k := s]
  {
  }

  class ShoulderKeyInputFiltrer {
    const touchList: array<Pos>
    var sent: seq<MotionEvent>

    ghost predicate Valid()
      reads this, touchList
    {
      touchList.Length == MAX_POINTER_COUNT && Distinct(touchList[..])
    }

    ghost function Table(): (t: seq<Slot>)
      requires Valid()
      reads this, touchList, touchList[..]
      ensures |t| == MAX_POINTER_COUNT
    {
      Values(touchList[..])
    }

    constructor ()
      ensures Valid() && fresh(touchList) && fresh(touchList[..]) && Table() == EmptyTable() && sent == []
    {
      var filler := new Pos();
      touchList := new Pos[16](_ => filler);
      sent := [];
      new;
      for i := 0 to 16
        modifies touchList
        invariant fresh(touchList[..])
        invariant forall j :: 0 <= j < i ==> touchList[j] != filler && touchList[j].Value() == FREE
        invariant forall j, k :: 0 <= j < k < i ==> touchList[j] != touchList[k]
      {
        var pos := new Pos();
        touchList[i] := pos;
      }
      assert Table() == EmptyTable();
    }

    method InsertTouch(pos: Pos) returns (index: int)
      requires Valid() && pos !in touchList[..]
      modifies touchList[..]
      ensures (Table(), index) == Insert(old(Table()), old(pos.Value()))
    {
      ghost var t, s := Table(), pos.Value();
      index := INVALID_POINTER_ID;
      for i := 0 to MAX_POINTER_COUNT
        invariant Table() == t && index == Rank(t, i) - 1
        invariant forall j :: 0 <= j < i ==> !(t[j].Held() && t[j].touchId == s.touchId)
      {
        if touchList[i].IsValid() {
          index := index + 1;
          if touchList[i].touchId == pos.touchId {
            touchList[i].SetPos(pos);
            OneUpdated(touchList[..], t, i, s);
            FindIs(t, s.touchId, i);
            return;
          }
        }
      }
      for i := 0 to MAX_POINTER_COUNT
        invariant Table() == t
        invariant forall j :: 0 <= j < i ==> t[j].Held()
      {
        if !touchList[i].IsValid() {
          touchList[i].SetPos(pos);
          OneUpdated(touchList[..], t, i, s);
          FirstFreeIs(t, i);
          return i;
        }
      }
      return INVALID_POINTER_ID;
    }

    method RemoveTouch(actionIndex: int) returns (inRange: bool)
      requires Valid()
      modifies touchList[..]
      ensures Table() == Remove(old(Table()), actionIndex)
      ensures inRange == (0 <= actionIndex < MAX_POINTER_COUNT)
    {
      if actionIndex < 0 || actionIndex >= MAX_POINTER_COUNT {
        return false;
      }
      ghost var t := Table();
      var left := actionIndex;
      for i := 0 to MAX_POINTER_COUNT
        invariant Table() == t && 0 <= left
        invariant NthHeld(t, left, i) == NthHeld(t, actionIndex, 0)
      {
        NthHeldStep(t, left, i);
        if touchList[i].IsValid() {
          if left == 0 {
            touchList[i].Reset();
            OneUpdated(touchList[..], t, i, FREE);
            return true;
          }
          left := left - 1;
        }
      }
      return true;
    }

    method ResetTouch()
      requires Valid()
      modifies touchList[..]
      ensures Table() == TouchTable.Reset(old(Table()))
    {
      ghost var t := Table();
      for i := 0 to MAX_POINTER_COUNT
        invariant forall j :: 0 <= j < i ==> touchList[j].Value() == TouchTable.Reset(t)[j]
        invariant forall j :: i <= j < MAX_POINTER_COUNT ==> touchList[j].Value() == t[j]
      {
        if touchList[i].IsValid() {
          touchList[i].Reset();
        }
      }
    }

    method ListPointers() returns (pointers: seq<Pointer>)
      requires Valid()
      ensures pointers == Listed(Table(), MAX_POINTER_COUNT)
    {
      pointers := [];
      for i := 0 to MAX_POINTER_COUNT
        invariant pointers == Listed(Table(), i)
      {
        if touchList[i].IsValid() {
          pointers := pointers + [Pointer(i, touchList[i].coords)];
        }
      }
    }

    method BuildMotionEvent(actionIndex: int, action: int) returns (e: Option<MotionEvent>)
      requires Valid()
      modifies touchList[..]
      ensures (Table(), e) == Build(old(Table()), actionIndex, action)
    {
      var pointers := ListPointers();
      if action == ACTION_UP || action == ACTION_POINTER_UP {
        var _ := RemoveTouch(actionIndex);
      }
      if action == ACTION_CANCEL || action == ACTION_HOVER_EXIT {
        ResetTouch();
      }
      if |pointers| == 0 {
        return None;
      }
      var word := action;
      if !(|pointers| <= 1 || action == ACTION_MOVE || action == ACTION_CANCEL) {
        if action == ACTION_DOWN {
          word := ACTION_POINTER_DOWN;
        } else if action == ACTION_UP {
          word := ACTION_POINTER_UP;
        }
        word := word + 0x100 * actionIndex;
      }
      return Some(MotionEvent(word, pointers));
    }

    method StartTouchInput(e: Option<MotionEvent>) returns (handled: bool)
      modifies this`sent
      ensures handled == e.Some?
      ensures sent == if e.Some? then old(sent) + [e.value] else old(sent)
    {
      if e.None? {
        return false;
      }
      sent := sent + [e.value];
      return true;
    }

    /** buildMotionEvent and startTouchInput, as both event handlers call them. */
    method BuildAndSend(actionIndex: int, action: int) returns (handled: bool)
      requires Valid()
      modifies this`sent, touchList[..]
      ensures Sent(Build(old(Table()), actionIndex, action), handled)
    {
      var e := BuildMotionEvent(actionIndex, action);
      handled := StartTouchInput(e);
    }

    method InsertNew(touchId: int, coords: Coords) returns (index: int)
      requires Valid()
      modifies touchList[..]
      ensures (Table(), index) == Insert(old(Table()), Slot(touchId, coords))
    {
      var pos := new Pos.At(coords);
      pos.touchId := touchId;
      index := InsertTouch(pos);
    }

    /** The table is the given one and the event, if any, was sent; handled says whether there was one. */
    twostate predicate Sent(outcome: (seq<Slot>, Option<MotionEvent>), handled: bool)
      requires Valid()
      reads this, touchList, touchList[..]
    {
      && Table() == outcome.0 && handled == outcome.1.Some?
      && sent == if outcome.1.Some? then old(sent) + [outcome.1.value] else old(sent)
    }

    method ProcessShoulderKeyEvent(shoulder: bool, code: int, action: int,
                                   mapping: Option<(Coords, Coords)>) returns (handled: bool)
      requires Valid()
      modifies this`sent, touchList[..]
      ensures Sent(Process(old(Table()), Key(shoulder, code, action, mapping)), handled)
    {
      if !shoulder {
        return false;
      }
      if !(code == LEFT_KEY_CODE || code == RIGHT_KEY_CODE) {
        return false;
      }
      var isLeft := code == LEFT_KEY_CODE;
      if action == ACTION_DOWN || action == ACTION_UP {
        if mapping.None? {
          return false;
        }
        var coords := mapping.value.1;
        if isLeft {
          coords := mapping.value.0;
        }
        var index := InsertNew(if isLeft then LEFT_TOUCH_ID else LEFT_TOUCH_ID + 1, coords);
        ProcessIsBuild(old(Table()), Key(shoulder, code, action, mapping));
        handled := BuildAndSend(index, action);
        return;
      }
      return false;
    }

    method ProcessTouchScreenEvent(action: int, eventIndex: int, pointers: seq<Pointer>) returns (handled: bool)
      requires Valid()
      modifies this`sent, touchList[..]
      ensures Sent(Process(old(Table()), Touch(action, eventIndex, pointers)), handled)
    {
      ghost var t := Table();
      var actionIndex := InsertPointers(eventIndex, pointers);
      ProcessIsBuild(t, Touch(action, eventIndex, pointers));
      handled := BuildAndSend(actionIndex, action);
    }

    /** The loop over the pointers of a touch event. */
    method InsertPointers(eventIndex: int, pointers: seq<Pointer>) returns (actionIndex: int)
      requires Valid()
      modifies touchList[..]
      ensures (Table(), actionIndex) == InsertAll(old(Table()), pointers, eventIndex, |pointers|)
    {
      ghost var t := Table();
      actionIndex := INVALID_POINTER_ID;
      for i := 0 to |pointers|
        invariant (Table(), actionIndex) == InsertAll(t, pointers, eventIndex, i)
      {
        InsertAllStep(t, pointers, eventIndex, i + 1);
        var index := InsertNew(pointers[i].id + 1, pointers[i].coords);
        if i == eventIndex {
          actionIndex := index;
        }
      }
    }
  }
}
