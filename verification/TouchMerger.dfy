/** Merging a touch stream and two hardware keys into one motion-event stream. */
module TouchMerger {
  import opened Collections
  import opened TouchTable

  // MotionEvent actions; KeyEvent's DOWN and UP have the same values.
  const ACTION_DOWN: int := 0
  const ACTION_UP: int := 1
  const ACTION_MOVE: int := 2
  const ACTION_CANCEL: int := 3
  const ACTION_POINTER_DOWN: int := 5
  const ACTION_POINTER_UP: int := 6
  const ACTION_HOVER_EXIT: int := 10

  const LEFT_KEY_CODE: int := 131
  const RIGHT_KEY_CODE: int := 132
  const LEFT_TOUCH_ID: int := 11

  /** An emitted event: the action word (action in the low byte, pointer index above it) and the pointers. */
  datatype MotionEvent = MotionEvent(word: int, pointers: seq<Pointer>) {
    function Action(): int { word % 0x100 }
    function Index(): int { word / 0x100 }
  }

  /** What arrives: a key event (whether its device is the shoulder keys', and the two mapped
      positions when there is a mapping), or a touch event with its masked action. */
  datatype Input =
    | Key(shoulder: bool, code: int, keyAction: int, mapping: Option<(Coords, Coords)>)
    | Touch(action: int, actionIndex: int, pointers: seq<Pointer>)

  // ------------------------------------------------------------------------
  // What the code computes
  // ------------------------------------------------------------------------

  /** The action word: pointer actions replace DOWN and UP when more than one pointer is listed. */
  function ActionWord(count: nat, actionIndex: int, action: int): int {
    if count <= 1 || action == ACTION_MOVE || action == ACTION_CANCEL then action
    else (if action == ACTION_DOWN then ACTION_POINTER_DOWN
          else if action == ACTION_UP then ACTION_POINTER_UP else action) + 0x100 * actionIndex
  }

  /** buildMotionEvent: the held slots are listed first, then the pointer that goes up is freed. */
  function Build(t: seq<Slot>, actionIndex: int, action: int): (seq<Slot>, Option<MotionEvent>) {
    var pointers := Listed(t, |t|);
    var t1 := if action == ACTION_UP || action == ACTION_POINTER_UP then Remove(t, actionIndex) else t;
    var t2 := if action == ACTION_CANCEL || action == ACTION_HOVER_EXIT then Reset(t1) else t1;
    (t2, if pointers == [] then None else Some(MotionEvent(ActionWord(|pointers|, actionIndex, action), pointers)))
  }

  /** A touchscreen pointer's touch id is one more than its pointer id. */
  function SlotOf(p: Pointer): Slot {
    Slot(p.id + 1, p.coords)
  }

  /** Inserting the first n pointers of a touch event; the index is that of the action pointer. */
  function InsertAll(t: seq<Slot>, pointers: seq<Pointer>, actionIndex: int, n: nat): (r: (seq<Slot>, int))
    requires n <= |pointers|
    ensures |r.0| == |t|
  {
    if n == 0 then (t, INVALID_POINTER_ID) else
      var (t1, index) := InsertAll(t, pointers, actionIndex, n - 1);
      var (t2, k) := Insert(t1, SlotOf(pointers[n - 1]));
      (t2, if n - 1 == actionIndex then k else index)
  }

  function Process(t: seq<Slot>, input: Input): (seq<Slot>, Option<MotionEvent>) {
    match input
    case Key(shoulder, code, action, mapping) =>
      if !shoulder || (code != LEFT_KEY_CODE && code != RIGHT_KEY_CODE) then (t, None)
      else if action != ACTION_DOWN && action != ACTION_UP then (t, None)
      else if mapping.None? then (t, None)
      else
        var left := code == LEFT_KEY_CODE;
        var s := Slot(if left then LEFT_TOUCH_ID else LEFT_TOUCH_ID + 1,
                      if left then mapping.value.0 else mapping.value.1);
        var (t1, index) := Insert(t, s);
        Build(t1, index, action)
    case Touch(action, actionIndex, pointers) =>
      var (t1, index) := InsertAll(t, pointers, actionIndex, |pointers|);
      Build(t1, index, action)
  }

  // ------------------------------------------------------------------------
  // Well-formed sources
  // ------------------------------------------------------------------------

  /** What is down, by touch id: 1 to 10 for touchscreen pointers 0 to 9, 11 and 12 for the keys. */
  type Down = map<int, Coords>

  predicate IsTouch(id: int) { 1 <= id <= 10 }
  predicate IsKey(id: int) { id == LEFT_TOUCH_ID || id == LEFT_TOUCH_ID + 1 }

  function Touches(down: Down): set<int> {
    set id | id in down && IsTouch(id)
  }

  /** The sources' pointers after the coordinates of a touch event are taken in. */
  function Merge(down: Down, pointers: seq<Pointer>): Down {
    if pointers == [] then down
    else Merge(down, pointers[..|pointers| - 1])[pointers[|pointers| - 1].id + 1 := pointers[|pointers| - 1].coords]
  }

  predicate DistinctPointers(pointers: seq<Pointer>) {
    && (forall i :: 0 <= i < |pointers| ==> 0 <= pointers[i].id <= 9)
    && (forall i, j :: 0 <= i < j < |pointers| ==> pointers[i].id != pointers[j].id)
  }

  /** Every pointer of the event but the one at index but (or none, when but is -1) is down, and all
      touches that are down are in the event. */
  predicate Covers(down: Down, pointers: seq<Pointer>, but: int) {
    && (forall i :: 0 <= i < |pointers| ==> (pointers[i].id + 1 in down <==> i != but))
    && (forall id :: id in Touches(down) ==> exists i :: 0 <= i < |pointers| && pointers[i].id + 1 == id)
  }

  /** The touch ids of a key event that is acted on. */
  function KeyId(code: int): int {
    if code == LEFT_KEY_CODE then LEFT_TOUCH_ID else LEFT_TOUCH_ID + 1
  }

  /** What the merger can follow: the touchscreen keeps the motion-event rules; a key goes down when it
      is up and up when it is down, with a mapping available; other key events are ignored. */
  predicate WellFormed(down: Down, input: Input) {
    match input
    case Key(shoulder, code, action, mapping) =>
      shoulder && (code == LEFT_KEY_CODE || code == RIGHT_KEY_CODE)
      && (action == ACTION_DOWN || action == ACTION_UP) ==>
        mapping.Some? && (action == ACTION_DOWN <==> KeyId(code) !in down)
    case Touch(action, ai, pointers) =>
      && DistinctPointers(pointers) && 0 <= ai < |pointers|
      && (|| (action == ACTION_DOWN && Touches(down) == {} && |pointers| == 1 && Covers(down, pointers, 0))
          || (action == ACTION_POINTER_DOWN && Touches(down) != {} && Covers(down, pointers, ai))
          || (action == ACTION_MOVE && ai == 0 && Covers(down, pointers, -1))
          || (action == ACTION_UP && |pointers| == 1 && Covers(down, pointers, -1))
          || (action == ACTION_POINTER_UP && |pointers| > 1 && Covers(down, pointers, -1))
          || (action == ACTION_CANCEL && ai == 0 && Covers(down, pointers, -1)))
  }

  predicate Acted(input: Input) {
    input.Touch? || (input.shoulder && (input.code == LEFT_KEY_CODE || input.code == RIGHT_KEY_CODE)
      && (input.keyAction == ACTION_DOWN || input.keyAction == ACTION_UP) && input.mapping.Some?)
  }

  /** The touch id an input is about. */
  function Subject(input: Input): int
    requires input.Touch? ==> 0 <= input.actionIndex < |input.pointers|
  {
    if input.Key? then KeyId(input.code) else input.pointers[input.actionIndex].id + 1
  }

  /** What is down while an event is being delivered: a pointer that goes up still counts. */
  function During(down: Down, input: Input): Down {
    if !Acted(input) then down
    else match input
      case Key(_, code, _, mapping) =>
        down[KeyId(code) := if code == LEFT_KEY_CODE then mapping.value.0 else mapping.value.1]
      case Touch(_, _, pointers) => Merge(down, pointers)
  }

  function InputAction(input: Input): int {
    if input.Key? then input.keyAction else input.action
  }

  function Next(down: Down, input: Input): Down
    requires WellFormed(down, input)
  {
    if !Acted(input) then down
    else if InputAction(input) == ACTION_UP || InputAction(input) == ACTION_POINTER_UP then
      During(down, input) - {Subject(input)}
    else if InputAction(input) == ACTION_CANCEL then map[]
    else During(down, input)
  }

  // ------------------------------------------------------------------------
  // Well-formed output
  // ------------------------------------------------------------------------

  predicate Increasing(pointers: seq<Pointer>) {
    forall j, k :: 0 <= j < k < |pointers| ==> pointers[j].id < pointers[k].id
  }

  /** The pointers of an event, by id. */
  function PointerMap(pointers: seq<Pointer>): map<int, Coords> {
    if pointers == [] then map[]
    else PointerMap(pointers[..|pointers| - 1])[pointers[|pointers| - 1].id := pointers[|pointers| - 1].coords]
  }

  /** A receiver to which the pointers before are down accepts the event: DOWN only when nothing is
      down, POINTER_DOWN only for a new pointer, UP only for the last one, POINTER_UP only for one of
      several, and every event lists just the pointers that are down. */
  predicate Accepts(before: map<int, Coords>, e: MotionEvent) {
    var during := PointerMap(e.pointers).Keys;
    && Increasing(e.pointers) && 0 <= e.Index() < |e.pointers|
    && (|| (e.Action() == ACTION_DOWN && before == map[] && |e.pointers| == 1)
        || (e.Action() == ACTION_POINTER_DOWN && before != map[]
            && e.pointers[e.Index()].id !in before && during == before.Keys + {e.pointers[e.Index()].id})
        || (e.Action() == ACTION_MOVE && during == before.Keys)
        || (e.Action() == ACTION_UP && |e.pointers| == 1 && during == before.Keys)
        || (e.Action() == ACTION_POINTER_UP && |e.pointers| > 1 && during == before.Keys)
        || (e.Action() == ACTION_CANCEL && during == before.Keys))
  }

  /** What the receiver holds to be down afterwards. */
  function Received(e: MotionEvent): map<int, Coords>
    requires 0 <= e.Index() < |e.pointers|
  {
    if e.Action() == ACTION_CANCEL then map[]
    else if e.Action() == ACTION_UP || e.Action() == ACTION_POINTER_UP then
      PointerMap(e.pointers) - {e.pointers[e.Index()].id}
    else PointerMap(e.pointers)
  }

  /** The first n slots as a receiver sees them: slot numbers are pointer ids. */
  function ShownTo(t: seq<Slot>, n: nat): (m: map<int, Coords>)
    requires n <= |t|
    ensures forall i :: i in m <==> 0 <= i < n && t[i].Held()
    ensures forall i :: i in m ==> m[i] == t[i].coords
  {
    if n == 0 then map[]
    else if t[n - 1].Held() then ShownTo(t, n - 1)[n - 1 := t[n - 1].coords]
    else ShownTo(t, n - 1)
  }

  function Shown(t: seq<Slot>): (m: map<int, Coords>)
    ensures forall i :: i in m <==> 0 <= i < |t| && t[i].Held()
    ensures forall i :: i in m ==> m[i] == t[i].coords
  {
    ShownTo(t, |t|)
  }

  // ------------------------------------------------------------------------
  // The table represents what is down
  // ------------------------------------------------------------------------

  /** Sixteen slots with distinct touch ids, holding exactly what is down. */
  ghost predicate Represents(t: seq<Slot>, down: Down) {
    && |t| == MAX_POINTER_COUNT
    && (forall i, j :: 0 <= i < j < |t| && t[i].Held() && t[j].Held() ==> t[i].touchId != t[j].touchId)
    && (forall i :: 0 <= i < |t| && t[i].Held() ==> t[i].touchId in down && down[t[i].touchId] == t[i].coords)
    && (forall id :: id in down ==> Find(t, id, 0) < |t|)
  }

  /** Only the twelve legal touch ids. */
  predicate Legal(down: Down) {
    forall id :: id in down ==> IsTouch(id) || IsKey(id)
  }

  lemma {:induction false} HeldIds(t: seq<Slot>, down: Down, n: nat) returns (ids: set<int>)
    requires Represents(t, down) && n <= |t| && forall i :: 0 <= i < n ==> t[i].Held()
    ensures |ids| == n && ids <= down.Keys
    ensures forall id :: id in ids ==> exists i :: 0 <= i < n && t[i].touchId == id
  {
    if n == 0 {
      ids := {};
    } else {
      ids := HeldIds(t, down, n - 1);
      ids := ids + {t[n - 1].touchId};
    }
  }

  /** Twelve touch ids never fill sixteen slots. */
  lemma {:induction false} SlotLeft(t: seq<Slot>, down: Down)
    requires Represents(t, down) && Legal(down)
    ensures FirstFree(t, 0) < |t|
  {
    if FirstFree(t, 0) == |t| {
      var ids := HeldIds(t, down, |t|);
      AtMostTwelve(ids, down);
    }
  }

  lemma {:induction false} AtMostTwelve(ids: set<int>, down: Down)
    requires ids <= down.Keys && Legal(down)
    ensures |ids| <= 12
  {
    var legal := {1, 2, 3, 4, 5, 6, 7, 8, 9, 10, 11, 12};
    forall id | id in ids
      ensures id in legal
    {
      assert id in down;
    }
    assert legal == ids + (legal - ids);
  }

  /** What one insertion does: the touch is in the table, the returned index is its rank, and no
      other touch moves. */
  lemma {:induction false} InsertRepresents(t: seq<Slot>, down: Down, s: Slot)
    requires Represents(t, down) && s.Held() && (s.touchId in down || FirstFree(t, 0) < |t|)
    ensures var (r, index) := Insert(t, s);
      && Represents(r, down[s.touchId := s.coords])
      && index == Rank(r, Find(r, s.touchId, 0))
      && (forall id :: id in down ==> Find(r, id, 0) == Find(t, id, 0))
      && (s.touchId in down ==> SamePattern(r, t, |t|))
      && (s.touchId !in down ==> !t[Find(r, s.touchId, 0)].Held())
  {
    var i := Find(t, s.touchId, 0);
    var k := if i < |t| then i else FirstFree(t, 0);
    var r := t[k := s];
    FindIs(r, s.touchId, k);
    if i < |t| {
      RankOfPattern(t, r, k);
    } else {
      RankWhenFull(r, k);
    }
    forall id | id in down
      ensures Find(r, id, 0) == Find(t, id, 0)
    {
      FindIs(r, id, Find(t, id, 0));
    }
    RepresentsUpdated(t, down, k, s);
  }

  lemma {:induction false} FindIs(t: seq<Slot>, id: int, k: nat)
    requires k < |t| && t[k].Held() && t[k].touchId == id
    requires forall j :: 0 <= j < k ==> !(t[j].Held() && t[j].touchId == id)
    ensures Find(t, id, 0) == k
  {
  }

  lemma {:induction false} RepresentsUpdated(t: seq<Slot>, down: Down, k: nat, s: Slot)
    requires Represents(t, down) && k < |t| && s.Held()
    requires t[k].Held() ==> t[k].touchId == s.touchId
    requires forall j :: 0 <= j < |t| && j != k && t[j].Held() ==> t[j].touchId != s.touchId
    ensures Represents(t[k := s], down[s.touchId := s.coords])
  {
    var r := t[k := s];
    forall id | id in down[s.touchId := s.coords]
      ensures Find(r, id, 0) < |r|
    {
      var j := if id == s.touchId then k else Find(t, id, 0);
      assert r[j].Held() && r[j].touchId == id;
    }
  }

  // ------------------------------------------------------------------------
  // The insertion phase
  // ------------------------------------------------------------------------

  lemma {:induction false} MergeDomain(down: Down, pointers: seq<Pointer>)
    ensures forall id :: id in Merge(down, pointers) <==>
      id in down || exists i :: 0 <= i < |pointers| && pointers[i].id + 1 == id
  {
    if pointers != [] {
      var init := pointers[..|pointers| - 1];
      MergeDomain(down, init);
      forall id | id in Merge(down, pointers)
        ensures id in down || exists i :: 0 <= i < |pointers| && pointers[i].id + 1 == id
      {
        if id != pointers[|pointers| - 1].id + 1 && id !in down {
          var i :| 0 <= i < |init| && init[i].id + 1 == id;
          assert pointers[i].id + 1 == id;
        }
      }
      forall id | exists i :: 0 <= i < |pointers| && pointers[i].id + 1 == id
        ensures id in Merge(down, pointers)
      {
        var i :| 0 <= i < |pointers| && pointers[i].id + 1 == id;
        assert i < |init| ==> init[i].id + 1 == id;
      }
    }
  }

  lemma {:induction false} MergeLegal(down: Down, pointers: seq<Pointer>)
    requires Legal(down) && DistinctPointers(pointers)
    ensures Legal(Merge(down, pointers))
  {
    MergeDomain(down, pointers);
  }

  /** The table after the insertions of an event, and the index they give to its subject: its rank. */
  ghost predicate Settled(t: seq<Slot>, down: Down, subject: int, during: Down, r: seq<Slot>, index: int) {
    && |t| == |r| && Represents(r, during) && subject in during && down.Keys <= during.Keys
    && index == Rank(r, Find(r, subject, 0))
    && (forall id :: id in down ==> Find(r, id, 0) == Find(t, id, 0))
    && (forall i :: 0 <= i < |t| && i != Find(r, subject, 0) ==> r[i].Held() == t[i].Held())
    && t[Find(r, subject, 0)].Held() == (subject in down)
  }

  lemma {:induction false} OneInsertSettles(t: seq<Slot>, down: Down, s: Slot)
    requires Represents(t, down) && Legal(down) && s.Held()
    ensures Settled(t, down, s.touchId, down[s.touchId := s.coords], Insert(t, s).0, Insert(t, s).1)
  {
    SlotLeft(t, down);
    InsertRepresents(t, down, s);
  }

  /** Updating another touch that is already in the table leaves the subject settled. */
  lemma {:induction false} UpdateKeepsSettled(t: seq<Slot>, down: Down, subject: int, mid: Down, r: seq<Slot>,
                                              index: int, s: Slot)
    requires Settled(t, down, subject, mid, r, index) && s.Held() && s.touchId in mid
    ensures Settled(t, down, subject, mid[s.touchId := s.coords], Insert(r, s).0, index)
  {
    InsertRepresents(r, mid, s);
    var r1 := Insert(r, s).0;
    assert Find(r1, subject, 0) == Find(r, subject, 0);
    RankOfPattern(r1, r, Find(r, subject, 0));
    forall id | id in down
      ensures Find(r1, id, 0) == Find(t, id, 0)
    {
      assert Find(r, id, 0) == Find(t, id, 0);
      assert id in mid;
    }
  }

  /** Pointers that are all down already: their insertion moves nothing. */
  ghost predicate Refreshed(t: seq<Slot>, down: Down, during: Down, r: seq<Slot>) {
    && |t| == |r| && Represents(r, during) && during.Keys == down.Keys && SamePattern(r, t, |t|)
    && (forall id :: id in down ==> Find(r, id, 0) == Find(t, id, 0))
  }

  lemma {:induction false} RefreshOne(t: seq<Slot>, down: Down, mid: Down, r: seq<Slot>, s: Slot)
    requires Refreshed(t, down, mid, r) && s.Held() && s.touchId in down
    ensures Refreshed(t, down, mid[s.touchId := s.coords], Insert(r, s).0)
  {
    InsertRepresents(r, mid, s);
    var r1 := Insert(r, s).0;
    forall id | id in down
      ensures Find(r1, id, 0) == Find(t, id, 0)
    {
      assert Find(r, id, 0) == Find(t, id, 0);
    }
    forall i | 0 <= i < |t|
      ensures r1[i].Held() == t[i].Held()
    {
      assert r[i].Held() == t[i].Held();
    }
  }

  lemma {:induction false} SettledThrough(t: seq<Slot>, down: Down, mid: Down, r: seq<Slot>, subject: int, during: Down,
                                          r1: seq<Slot>, index: int)
    requires Refreshed(t, down, mid, r) && Settled(r, mid, subject, during, r1, index)
    ensures Settled(t, down, subject, during, r1, index)
  {
    forall id | id in down
      ensures Find(r1, id, 0) == Find(t, id, 0)
    {
      assert id in mid && Find(r, id, 0) == Find(t, id, 0);
    }
  }

  lemma {:induction false} InsertAllStep(t: seq<Slot>, pointers: seq<Pointer>, ai: int, n: nat)
    requires 0 < n <= |pointers|
    ensures InsertAll(t, pointers, ai, n).0 ==
      Insert(InsertAll(t, pointers, ai, n - 1).0, SlotOf(pointers[n - 1])).0
    ensures InsertAll(t, pointers, ai, n).1 == if n - 1 != ai then InsertAll(t, pointers, ai, n - 1).1 else
      Insert(InsertAll(t, pointers, ai, n - 1).0, SlotOf(pointers[n - 1])).1
  {
  }

  lemma {:induction false} MergeStep(down: Down, pointers: seq<Pointer>, n: nat)
    requires 0 < n <= |pointers|
    ensures Merge(down, pointers[..n]) ==
      Merge(down, pointers[..n - 1])[pointers[n - 1].id + 1 := pointers[n - 1].coords]
  {
    assert pointers[..n][..n - 1] == pointers[..n - 1];
  }

  /** What every single insertion keeps, the insertion of several pointers keeps. */
  lemma {:induction false} InsertAllKeeps(p: (Down, seq<Slot>) -> bool, t: seq<Slot>, down: Down,
                                          pointers: seq<Pointer>, ai: int, lo: nat, n: nat)
    requires lo <= n <= |pointers| && p(Merge(down, pointers[..lo]), InsertAll(t, pointers, ai, lo).0)
    requires forall mid: Down, r: seq<Slot>, i {:trigger p(mid, r), Insert(r, SlotOf(pointers[i]))} ::
      lo <= i < n && p(mid, r) ==>
      p(mid[pointers[i].id + 1 := pointers[i].coords], Insert(r, SlotOf(pointers[i])).0)
    ensures p(Merge(down, pointers[..n]), InsertAll(t, pointers, ai, n).0)
    decreases n
  {
    if lo < n {
      InsertAllKeeps(p, t, down, pointers, ai, lo, n - 1);
      MergeStep(down, pointers, n);
      InsertAllStep(t, pointers, ai, n);
    }
  }

  /** The index of the action pointer is not touched by later insertions. */
  lemma {:induction false} IndexStays(t: seq<Slot>, pointers: seq<Pointer>, ai: nat, n: nat)
    requires ai < n <= |pointers|
    ensures InsertAll(t, pointers, ai, n).1 == InsertAll(t, pointers, ai, ai + 1).1
  {
    if ai + 1 < n {
      IndexStays(t, pointers, ai, n - 1);
      InsertAllStep(t, pointers, ai, n);
    }
  }

  lemma {:induction false} RefreshAll(t: seq<Slot>, down: Down, pointers: seq<Pointer>, ai: int, n: nat)
    requires Represents(t, down) && n <= |pointers| && DistinctPointers(pointers)
    requires forall i :: 0 <= i < n ==> pointers[i].id + 1 in down
    ensures Refreshed(t, down, Merge(down, pointers[..n]), InsertAll(t, pointers, ai, n).0)
  {
    var p := (mid: Down, r: seq<Slot>) => Refreshed(t, down, mid, r);
    forall mid: Down, r: seq<Slot>, i | 0 <= i < n && p(mid, r)
      ensures p(mid[pointers[i].id + 1 := pointers[i].coords], Insert(r, SlotOf(pointers[i])).0)
    {
      RefreshOne(t, down, mid, r, SlotOf(pointers[i]));
    }
    InsertAllKeeps(p, t, down, pointers, ai, 0, n);
  }

  /** The pointers of a touch event up to the subject inserted. */
  lemma {:induction false} InsertUpToSubject(t: seq<Slot>, down: Down, pointers: seq<Pointer>, ai: nat)
    requires Represents(t, down) && Legal(down) && DistinctPointers(pointers) && ai < |pointers|
    requires forall i :: 0 <= i < ai ==> pointers[i].id + 1 in down
    ensures Settled(t, down, pointers[ai].id + 1, Merge(down, pointers[..ai + 1]),
                    InsertAll(t, pointers, ai, ai + 1).0, InsertAll(t, pointers, ai, ai + 1).1)
  {
    RefreshAll(t, down, pointers, ai, ai);
    SubjectStep(t, down, pointers, ai);
  }

  lemma {:induction false} SubjectStep(t: seq<Slot>, down: Down, pointers: seq<Pointer>, ai: nat)
    requires Legal(down) && DistinctPointers(pointers) && ai < |pointers|
    requires Refreshed(t, down, Merge(down, pointers[..ai]), InsertAll(t, pointers, ai, ai).0)
    ensures Settled(t, down, pointers[ai].id + 1, Merge(down, pointers[..ai + 1]),
                    InsertAll(t, pointers, ai, ai + 1).0, InsertAll(t, pointers, ai, ai + 1).1)
  {
    MergeStep(down, pointers, ai + 1);
    InsertAllStep(t, pointers, ai, ai + 1);
    SubjectInserted(t, down, Merge(down, pointers[..ai]), InsertAll(t, pointers, ai, ai).0, SlotOf(pointers[ai]),
                    Merge(down, pointers[..ai + 1]), InsertAll(t, pointers, ai, ai + 1).0,
                    InsertAll(t, pointers, ai, ai + 1).1);
  }

  lemma {:induction false} InsertFromSubject(t: seq<Slot>, down: Down, pointers: seq<Pointer>, ai: nat, index: int)
    requires DistinctPointers(pointers) && ai < |pointers|
    requires forall i :: ai < i < |pointers| ==> pointers[i].id + 1 in down
    requires Settled(t, down, pointers[ai].id + 1, Merge(down, pointers[..ai + 1]),
                     InsertAll(t, pointers, ai, ai + 1).0, index)
    ensures Settled(t, down, pointers[ai].id + 1, Merge(down, pointers[..|pointers|]),
                    InsertAll(t, pointers, ai, |pointers|).0, index)
  {
    var p := (mid: Down, r: seq<Slot>) => Settled(t, down, pointers[ai].id + 1, mid, r, index);
    forall mid: Down, r: seq<Slot>, i | ai + 1 <= i < |pointers| && p(mid, r)
      ensures p(mid[pointers[i].id + 1 := pointers[i].coords], Insert(r, SlotOf(pointers[i])).0)
    {
      UpdateKeepsSettled(t, down, pointers[ai].id + 1, mid, r, index, SlotOf(pointers[i]));
    }
    InsertAllKeeps(p, t, down, pointers, ai, ai + 1, |pointers|);
  }

  /** All the pointers of a touch event inserted, the subject among them. */
  lemma {:induction false} InsertAllSettles(t: seq<Slot>, down: Down, pointers: seq<Pointer>, ai: nat)
    requires Represents(t, down) && Legal(down) && DistinctPointers(pointers) && ai < |pointers|
    requires forall i :: 0 <= i < |pointers| && i != ai ==> pointers[i].id + 1 in down
    ensures Settled(t, down, pointers[ai].id + 1, Merge(down, pointers),
                    InsertAll(t, pointers, ai, |pointers|).0, InsertAll(t, pointers, ai, |pointers|).1)
  {
    InsertUpToSubject(t, down, pointers, ai);
    InsertFromSubject(t, down, pointers, ai, InsertAll(t, pointers, ai, ai + 1).1);
    IndexStays(t, pointers, ai, |pointers|);
    assert pointers[..|pointers|] == pointers;
  }

  lemma {:induction false} SubjectInserted(t: seq<Slot>, down: Down, mid: Down, r: seq<Slot>, s: Slot, during: Down,
                                           r1: seq<Slot>, index: int)
    requires Refreshed(t, down, mid, r) && Legal(down) && s.Held()
    requires during == mid[s.touchId := s.coords] && r1 == Insert(r, s).0 && index == Insert(r, s).1
    ensures Settled(t, down, s.touchId, during, r1, index)
  {
    OneInsertSettles(r, mid, s);
    SettledThrough(t, down, mid, r, s.touchId, during, r1, index);
  }

  /** The table and the index at the end of the insertion phase. */
  function Inserted(t: seq<Slot>, input: Input): (seq<Slot>, int)
    requires Acted(input)
  {
    match input
    case Key(_, code, _, mapping) =>
      Insert(t, Slot(KeyId(code), if code == LEFT_KEY_CODE then mapping.value.0 else mapping.value.1))
    case Touch(_, ai, pointers) => InsertAll(t, pointers, ai, |pointers|)
  }

  lemma {:induction false} KeyInsertionSettles(t: seq<Slot>, down: Down, input: Input)
    requires Represents(t, down) && Legal(down) && Acted(input) && input.Key?
    ensures Settled(t, down, Subject(input), During(down, input), Inserted(t, input).0, Inserted(t, input).1)
    ensures Legal(During(down, input))
  {
    var mapping := input.mapping.value;
    OneInsertSettles(t, down, Slot(KeyId(input.code), if input.code == LEFT_KEY_CODE then mapping.0 else mapping.1));
  }

  /** All pointers of a touch event but its subject are down before it. */
  lemma {:induction false} OthersDown(down: Down, input: Input)
    requires WellFormed(down, input) && input.Touch?
    ensures DistinctPointers(input.pointers) && 0 <= input.actionIndex < |input.pointers|
    ensures forall i :: 0 <= i < |input.pointers| && i != input.actionIndex ==> input.pointers[i].id + 1 in down
  {
  }

  lemma {:induction false} TouchInsertionSettles(t: seq<Slot>, down: Down, input: Input)
    requires Represents(t, down) && Legal(down) && input.Touch?
    requires DistinctPointers(input.pointers) && 0 <= input.actionIndex < |input.pointers|
    requires forall i :: 0 <= i < |input.pointers| && i != input.actionIndex ==> input.pointers[i].id + 1 in down
    ensures Settled(t, down, Subject(input), During(down, input), Inserted(t, input).0, Inserted(t, input).1)
  {
    InsertAllSettles(t, down, input.pointers, input.actionIndex);
  }

  // ------------------------------------------------------------------------
  // The emitted event
  // ------------------------------------------------------------------------

  lemma {:induction false} PointerMapOfListed(t: seq<Slot>, n: nat)
    requires n <= |t|
    ensures PointerMap(Listed(t, n)) == ShownTo(t, n)
  {
    if n > 0 {
      PointerMapOfListed(t, n - 1);
      var l := Listed(t, n - 1);
      if t[n - 1].Held() {
        PointerMapSnoc(l, Pointer(n - 1, t[n - 1].coords));
      } else {
        assert l + [] == l;
      }
    }
  }

  lemma {:induction false} PointerMapSnoc(l: seq<Pointer>, p: Pointer)
    ensures PointerMap(l + [p]) == PointerMap(l)[p.id := p.coords]
  {
    assert (l + [p])[..|l|] == l;
  }

  /** The pointer list of a table, and where the settled subject stands in it. */
  lemma {:induction false} ListedSettled(t: seq<Slot>, down: Down, subject: int, during: Down, r: seq<Slot>, index: int)
    requires Settled(t, down, subject, during, r, index)
    ensures 0 <= index < |Listed(r, |r|)| <= |r| && Increasing(Listed(r, |r|))
    ensures Listed(r, |r|)[index].id == Find(r, subject, 0)
    ensures PointerMap(Listed(r, |r|)) == Shown(r)
    ensures Remove(r, index) == r[Find(r, subject, 0) := FREE]
  {
    var k := Find(r, subject, 0);
    assert k < |r| && r[k].Held() && index == Rank(r, k) && |r| == MAX_POINTER_COUNT;
    ListedHeld(r, k);
    PointerMapOfListed(r, |r|);
    RemoveAtRank(r, k);
  }

  lemma {:induction false} ListedHeld(r: seq<Slot>, k: nat)
    requires k < |r| && r[k].Held()
    ensures Rank(r, k) < |Listed(r, |r|)| <= |r| && Increasing(Listed(r, |r|)) && Listed(r, |r|)[Rank(r, k)].id == k
  {
    ListedIncreasing(r, |r|);
    ListedAtRank(r, |r|, k);
  }

  lemma {:induction false} RemoveAtRank(r: seq<Slot>, k: nat)
    requires k < |r| == MAX_POINTER_COUNT && r[k].Held()
    ensures Remove(r, Rank(r, k)) == r[k := FREE]
  {
    ListedAtRank(r, |r|, k);
    NthHeldOfRank(r, k, 0);
  }

  lemma {:induction false} ShownSettled(t: seq<Slot>, down: Down, subject: int, during: Down, r: seq<Slot>, index: int)
    requires Settled(t, down, subject, during, r, index)
    ensures Shown(r).Keys == Shown(t).Keys + {Find(r, subject, 0)}
    ensures Find(r, subject, 0) in Shown(t) <==> subject in down
  {
    var k := Find(r, subject, 0);
    forall i
      ensures i in Shown(r) <==> i in Shown(t) || i == k
    {
      if 0 <= i < |t| && i != k {
        assert r[i].Held() == t[i].Held();
      }
    }
  }

  lemma {:induction false} FirstTwoDiffer(l: seq<Pointer>)
    requires Increasing(l) && |l| > 1
    ensures l[0].id != l[1].id
  {
    assert l[0].id < l[1].id;
  }

  /** More than one pointer is listed exactly when some slot beside the subject's is held. */
  lemma {:induction false} OneListed(r: seq<Slot>, k: nat)
    requires k < |r| && r[k].Held()
    ensures |Listed(r, |r|)| == 1 <==> Shown(r).Keys == {k}
    ensures Shown(r).Keys == {k} ==> Rank(r, k) == 0
  {
    ListedAtRank(r, |r|, k);
    ListedIncreasing(r, |r|);
    if |Listed(r, |r|)| == 1 {
      forall i | i in Shown(r)
        ensures i == k
      {
        ListedAtRank(r, |r|, i);
      }
      assert k in Shown(r);
    }
    if Shown(r).Keys == {k} {
      forall j | 0 <= j < |Listed(r, |r|)|
        ensures Listed(r, |r|)[j].id == k
      {
        assert Listed(r, |r|)[j].id in Shown(r);
      }
      if |Listed(r, |r|)| > 1 {
        FirstTwoDiffer(Listed(r, |r|));
      }
    }
  }

  lemma {:induction false} ProcessIsBuild(t: seq<Slot>, input: Input)
    requires Acted(input)
    ensures Process(t, input) == Build(Inserted(t, input).0, Inserted(t, input).1, InputAction(input))
  {
  }

  /** The action word holds the action and the index apart. */
  lemma {:induction false} WordDecodes(count: nat, index: int, action: int)
    requires 0 <= index && 0 <= action < 0x100
    ensures var w := ActionWord(count, index, action);
      if count <= 1 || action == ACTION_MOVE || action == ACTION_CANCEL then w % 0x100 == action && w / 0x100 == 0
      else w % 0x100 == (if action == ACTION_DOWN then ACTION_POINTER_DOWN
                         else if action == ACTION_UP then ACTION_POINTER_UP else action) && w / 0x100 == index
  {
  }

  /** The action of an input fits the number of pointers that are down with it. */
  predicate Fits(known: bool, count: nat, action: int) {
    if known then action == ACTION_MOVE || action == ACTION_UP || action == ACTION_CANCEL
      || (action == ACTION_POINTER_UP && count > 1)
    else action == ACTION_DOWN || (action == ACTION_POINTER_DOWN && count > 1)
  }

  lemma {:induction false} SubjectKnown(down: Down, input: Input)
    requires WellFormed(down, input) && Acted(input)
    ensures (Subject(input) in down) == (InputAction(input) != ACTION_DOWN && InputAction(input) != ACTION_POINTER_DOWN)
    ensures InputAction(input) in {ACTION_DOWN, ACTION_UP, ACTION_MOVE, ACTION_CANCEL,
      ACTION_POINTER_DOWN, ACTION_POINTER_UP}
    ensures input.Key? ==> InputAction(input) == ACTION_DOWN || InputAction(input) == ACTION_UP
  {
    if input.Touch? {
      assert input.pointers[input.actionIndex].id + 1 == Subject(input);
    }
  }

  lemma {:induction false} SeveralListed(r: seq<Slot>, during: Down, a: int, b: int)
    requires Represents(r, during) && a in during && b in during && a != b
    ensures |Listed(r, |r|)| > 1
  {
    OneListed(r, Find(r, a, 0));
    ListedAtRank(r, |r|, Find(r, a, 0));
    assert Find(r, b, 0) in Shown(r);
  }

  lemma {:induction false} ActionFits(t: seq<Slot>, down: Down, input: Input, r: seq<Slot>, index: int)
    requires WellFormed(down, input) && Acted(input)
    requires Settled(t, down, Subject(input), During(down, input), r, index)
    ensures Fits(Subject(input) in down, |Listed(r, |r|)|, InputAction(input))
  {
    SubjectKnown(down, input);
    if input.Touch? && (input.action == ACTION_POINTER_DOWN || input.action == ACTION_POINTER_UP) {
      var id := OtherTouch(down, input);
      SeveralListed(r, During(down, input), id, Subject(input));
    }
  }

  /** Beside the subject of a pointer action another touch is down. */
  lemma {:induction false} OtherTouch(down: Down, input: Input) returns (id: int)
    requires WellFormed(down, input) && input.Touch?
    requires input.action == ACTION_POINTER_DOWN || input.action == ACTION_POINTER_UP
    ensures id in down && id != Subject(input)
  {
    if input.action == ACTION_POINTER_DOWN {
      id :| id in Touches(down);
    } else {
      var other := if input.actionIndex == 0 then 1 else 0;
      id := input.pointers[other].id + 1;
    }
  }

  /** Why the receiver accepts, from where the subject stands in the pointer list. */
  lemma {:induction false} AcceptedFrom(before: map<int, Coords>, l: seq<Pointer>, index: int, action: int, k: int,
                                        known: bool)
    requires Increasing(l) && 0 <= index < |l| && l[index].id == k
    requires PointerMap(l).Keys == before.Keys + {k} && (k in before) == known
    requires |l| == 1 <==> PointerMap(l).Keys == {k}
    requires Fits(known, |l|, action)
    ensures var e := MotionEvent(ActionWord(|l|, index, action), l);
      && Accepts(before, e)
      && Received(e) == (if action == ACTION_CANCEL then map[]
                         else if action == ACTION_UP || action == ACTION_POINTER_UP then PointerMap(l) - {k}
                         else PointerMap(l))
  {
    WordDecodes(|l|, index, action);
    if |l| == 1 {
      assert index == 0;
      if !known {
        assert before.Keys == {};
      }
    } else {
      assert before == map[] ==> before.Keys + {k} == {k};
    }
  }

  lemma {:induction false} FreeRepresents(r: seq<Slot>, during: Down, subject: int)
    requires Represents(r, during) && subject in during
    ensures var k := Find(r, subject, 0);
      && Represents(r[k := FREE], during - {subject})
      && Shown(r[k := FREE]) == Shown(r) - {k}
      && (forall id :: id in during && id != subject ==> Find(r[k := FREE], id, 0) == Find(r, id, 0))
  {
    var k := Find(r, subject, 0);
    var t := r[k := FREE];
    forall id | id in during && id != subject
      ensures Find(t, id, 0) == Find(r, id, 0)
    {
      FindIs(t, id, Find(r, id, 0));
    }
    forall i
      ensures i in Shown(t) <==> i in Shown(r) - {k}
      ensures i in Shown(t) ==> Shown(t)[i] == Shown(r)[i]
    {
    }
    assert Shown(t).Keys == (Shown(r) - {k}).Keys;
  }

  lemma {:induction false} ResetRepresents(r: seq<Slot>)
    requires |r| == MAX_POINTER_COUNT
    ensures Represents(Reset(r), map[]) && Shown(Reset(r)) == map[]
  {
    assert forall i :: 0 <= i < |r| ==> !Reset(r)[i].Held();
    forall i
      ensures i !in Shown(Reset(r))
    {
      if 0 <= i < |r| {
        assert !Reset(r)[i].Held();
      }
    }
    assert Shown(Reset(r)).Keys == {};
  }

  /** The event that is built: the receiver accepts it. */
  lemma {:induction false} EventAccepted(t: seq<Slot>, down: Down, input: Input, r: seq<Slot>, index: int)
    requires WellFormed(down, input) && Acted(input)
    requires Settled(t, down, Subject(input), During(down, input), r, index)
    ensures var e := Build(r, index, InputAction(input)).1;
      && e.Some? && e.value.pointers == Listed(r, |r|) && Accepts(Shown(t), e.value)
      && Received(e.value) == (if InputAction(input) == ACTION_CANCEL then map[]
           else if InputAction(input) == ACTION_UP || InputAction(input) == ACTION_POINTER_UP then
             Shown(r) - {Find(r, Subject(input), 0)}
           else Shown(r))
  {
    var subject, during, action := Subject(input), During(down, input), InputAction(input);
    ActionFits(t, down, input, r, index);
    ListedSettled(t, down, subject, during, r, index);
    ShownSettled(t, down, subject, during, r, index);
    OneListed(r, Find(r, subject, 0));
    AcceptedFrom(Shown(t), Listed(r, |r|), index, action, Find(r, subject, 0), subject in down);
  }

  /** The table that is left: it represents what is down now. */
  lemma {:induction false} TableAfterBuild(t: seq<Slot>, down: Down, subject: int, during: Down, r: seq<Slot>,
                                           index: int, action: int)
    requires Settled(t, down, subject, during, r, index)
    ensures var t1 := Build(r, index, action).0;
      if action == ACTION_CANCEL then Represents(t1, map[]) && Shown(t1) == map[]
      else if action == ACTION_UP || action == ACTION_POINTER_UP then
        && Represents(t1, during - {subject}) && Shown(t1) == Shown(r) - {Find(r, subject, 0)}
        && forall id :: id in during && id != subject ==> Find(t1, id, 0) == Find(r, id, 0)
      else action != ACTION_HOVER_EXIT ==> t1 == r
  {
    ListedSettled(t, down, subject, during, r, index);
    FreeRepresents(r, during, subject);
    ResetRepresents(r);
  }

  /** One event: the table keeps representing what is down, the receiver accepts, and sees the table. */
  lemma {:induction false} BuildAccepted(t: seq<Slot>, down: Down, input: Input, r: seq<Slot>, index: int)
    requires WellFormed(down, input) && Acted(input)
    requires Settled(t, down, Subject(input), During(down, input), r, index)
    ensures var (t1, e) := Build(r, index, InputAction(input));
      && e.Some? && e.value.pointers == Listed(r, |r|) && Accepts(Shown(t), e.value)
      && Represents(t1, Next(down, input)) && Shown(t1) == Received(e.value)
      && (forall id :: id in Next(down, input) ==> Find(t1, id, 0) == Find(r, id, 0))
  {
    SubjectKnown(down, input);
    EventAccepted(t, down, input, r, index);
    TableAfterBuild(t, down, Subject(input), During(down, input), r, index, InputAction(input));
  }

  // ------------------------------------------------------------------------
  // Main results
  // ------------------------------------------------------------------------

  /** The event shows every source pointer at its latest coordinates, under the number of its slot,
      and nothing else. */
  ghost predicate ShowsExactly(e: MotionEvent, r: seq<Slot>, during: Down) {
    && (forall id :: id in during ==> Find(r, id, 0) < |r| && Pointer(Find(r, id, 0), during[id]) in e.pointers)
    && (forall p :: p in e.pointers ==> exists id :: id in during && p == Pointer(Find(r, id, 0), during[id]))
  }

  lemma {:induction false} ListedShowsExactly(r: seq<Slot>, during: Down, e: MotionEvent)
    requires Represents(r, during) && e.pointers == Listed(r, |r|)
    ensures ShowsExactly(e, r, during)
  {
    forall id | id in during
      ensures Find(r, id, 0) < |r| && Pointer(Find(r, id, 0), during[id]) in e.pointers
    {
      ListedAtRank(r, |r|, Find(r, id, 0));
    }
    ListedIncreasing(r, |r|);
    forall p | p in e.pointers
      ensures exists id :: id in during && p == Pointer(Find(r, id, 0), during[id])
    {
      var j :| 0 <= j < |e.pointers| && e.pointers[j] == p;
      var id := r[p.id].touchId;
      FindIs(r, id, p.id);
      assert id in during && p == Pointer(Find(r, id, 0), during[id]);
    }
  }

  /** One input of well-formed sources. */
  lemma {:induction false} StepCorrect(t: seq<Slot>, down: Down, input: Input)
    requires Represents(t, down) && Legal(down) && WellFormed(down, input)
    ensures Represents(Process(t, input).0, Next(down, input)) && Legal(Next(down, input))
    ensures !Acted(input) ==> Process(t, input) == (t, None)
    ensures Acted(input) ==> Process(t, input).1.Some?
    ensures Acted(input) ==> Accepts(Shown(t), Process(t, input).1.value)
    ensures Acted(input) ==> Shown(Process(t, input).0) == Received(Process(t, input).1.value)
    ensures Acted(input) ==> ShowsExactly(Process(t, input).1.value, Inserted(t, input).0, During(down, input))
    ensures forall id :: id in down && id in Next(down, input) ==> Find(Process(t, input).0, id, 0) == Find(t, id, 0)
  {
    if Acted(input) {
      var (r, index) := Inserted(t, input);
      if input.Key? {
        KeyInsertionSettles(t, down, input);
      } else {
        OthersDown(down, input);
        TouchInsertionSettles(t, down, input);
        MergeLegal(down, input.pointers);
      }
      ProcessIsBuild(t, input);
      BuildAccepted(t, down, input, r, index);
      ListedShowsExactly(r, During(down, input), Process(t, input).1.value);
      forall id | id in down && id in Next(down, input)
        ensures Find(Process(t, input).0, id, 0) == Find(t, id, 0)
      {
        assert Find(r, id, 0) == Find(t, id, 0);
      }
    }
  }

  /** removeTouch(insertTouch(p)) frees exactly p's slot, whether p was known or new. */
  lemma {:induction false} RemoveAfterInsert(t: seq<Slot>, down: Down, s: Slot)
    requires Represents(t, down) && Legal(down) && s.Held()
    ensures var (r, index) := Insert(t, s);
      && Find(r, s.touchId, 0) < |r| && Remove(r, index) == r[Find(r, s.touchId, 0) := FREE]
      && Represents(Remove(r, index), down - {s.touchId})
      && 0 <= index < |Listed(r, |r|)| && Listed(r, |r|)[index] == Pointer(Find(r, s.touchId, 0), s.coords)
  {
    OneInsertSettles(t, down, s);
    var (r, index) := Insert(t, s);
    ListedSettled(t, down, s.touchId, down[s.touchId := s.coords], r, index);
    FreeRepresents(r, down[s.touchId := s.coords], s.touchId);
    assert down[s.touchId := s.coords] - {s.touchId} == down - {s.touchId};
    ListedAtRank(r, |r|, Find(r, s.touchId, 0));
  }

  /** An UP whose pointer was not down before is refused, alone or among others. */
  lemma {:induction false} StrayUpRefused(before: map<int, Coords>, l: seq<Pointer>, index: int, k: int)
    requires 0 <= index < |l| && PointerMap(l).Keys == before.Keys + {k} && k !in before
    ensures !Accepts(before, MotionEvent(ActionWord(|l|, index, ACTION_UP), l))
  {
    WordDecodes(|l|, index, ACTION_UP);
    assert k in PointerMap(l).Keys;
  }

  /** A key released while the merger does not have it down: in any table, with anything else down, the
      release is delivered, and refused. */
  lemma {:induction false} StrayRelease(t: seq<Slot>, down: Down, up: Input)
    requires Represents(t, down) && Legal(down)
    requires up.Key? && Acted(up) && up.keyAction == ACTION_UP && Subject(up) !in down
    ensures Process(t, up).1.Some? && !Accepts(Shown(t), Process(t, up).1.value)
  {
    KeyInsertionSettles(t, down, up);
    var (r, index) := Inserted(t, up);
    ProcessIsBuild(t, up);
    ListedSettled(t, down, Subject(up), During(down, up), r, index);
    ShownSettled(t, down, Subject(up), During(down, up), r, index);
    StrayUpRefused(Shown(t), Listed(r, |r|), index, Find(r, Subject(up), 0));
  }

  // ------------------------------------------------------------------------
  // What reaches the receiver at all, and where
  // ------------------------------------------------------------------------

  /** Keys of other devices, other keys, other key actions and keys without a mapping are swallowed. */
  lemma {:induction false} OtherKeysSwallowed(t: seq<Slot>, key: Input)
    requires key.Key?
    requires !key.shoulder || key.code !in {131, 132} || key.keyAction !in {0, 1} || key.mapping.None?
    ensures Process(t, key) == (t, None)
  {
  }

  /** Whatever is down, a key that finds a place is shown at the position mapped to it: the left key at the
      first, the right key at the second. */
  lemma {:induction false} KeyIsShown(t: seq<Slot>, code: int, action: int, left: Coords, right: Coords)
    requires (code == 131 || code == 132) && (action == 0 || action == 1) && FirstFree(t, 0) < |t|
    ensures var e := Process(t, Key(true, code, action, Some((left, right)))).1;
      e.Some? && exists p :: p in e.value.pointers && p.coords == if code == 131 then left else right
  {
    var s := Slot(KeyId(code), if code == 131 then left else right);
    var r := Insert(t, s).0;
    var i := if Find(t, s.touchId, 0) < |t| then Find(t, s.touchId, 0) else FirstFree(t, 0);
    assert r[i] == s;
    ListedAtRank(r, |r|, i);
    assert Listed(r, |r|)[Rank(r, i)] in Listed(r, |r|);
  }

  /** The end of a hover, like a CANCEL, frees every slot. */
  lemma {:induction false} HoverExitFreesAll(t: seq<Slot>, actionIndex: int, pointers: seq<Pointer>)
    ensures forall i :: 0 <= i < |t| ==> !Process(t, Touch(10, actionIndex, pointers)).0[i].Held()
    ensures forall i :: 0 <= i < |t| ==> !Process(t, Touch(3, actionIndex, pointers)).0[i].Held()
  {
  }

  /** A full table takes no further touch, and says so. */
  lemma {:induction false} FullTableRefuses(t: seq<Slot>, s: Slot)
    requires forall i :: 0 <= i < |t| ==> t[i].Held() && t[i].touchId != s.touchId
    ensures Insert(t, s) == (t, -1)
  {
  }

  /** Removing at an index that is no rank changes nothing. */
  lemma {:induction false} StrayIndexIgnored(t: seq<Slot>, index: int)
    requires index < 0 || index >= 16 || index >= Rank(t, |t|)
    ensures Remove(t, index) == t
  {
    if 0 <= index < 16 {
      BeyondTheLast(t, index, 0);
    }
  }

  lemma {:induction false} BeyondTheLast(t: seq<Slot>, n: nat, from: nat)
    requires from <= |t| && n + Rank(t, from) >= Rank(t, |t|)
    ensures NthHeld(t, n, from) == |t|
    decreases |t| - from
  {
    if from < |t| {
      assert Rank(t, from + 1) == Rank(t, from) + if t[from].Held() then 1 else 0;
      RankGrows(t, from + 1, |t|);
      if !t[from].Held() {
        BeyondTheLast(t, n, from + 1);
      } else {
        assert n > 0;
        BeyondTheLast(t, n - 1, from + 1);
      }
    }
  }

  lemma {:induction false} RankGrows(t: seq<Slot>, i: nat, n: nat)
    requires i <= n <= |t|
    ensures Rank(t, i) <= Rank(t, n)
    decreases n
  {
    if i < n {
      RankGrows(t, i, n - 1);
    }
  }
}
