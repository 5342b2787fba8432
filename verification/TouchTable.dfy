/** The 16-slot table of the touch merger as a list of slots: how a touch finds its slot, and how
    a slot number relates to the rank among held slots. */
module TouchTable {

  const INVALID_POINTER_ID: int := -1
  const MAX_POINTER_COUNT: nat := 16

  datatype Coords = Coords(x: real, y: real)

  datatype Slot = Slot(touchId: int, coords: Coords) {
    predicate Held() {
      touchId != INVALID_POINTER_ID
    }
  }

  const FREE: Slot := Slot(INVALID_POINTER_ID, Coords(0.0, 0.0))

  /** One pointer of an emitted event: the slot number is its id. */
  datatype Pointer = Pointer(id: int, coords: Coords)

  /** The number of held slots among the first n. */
  function Rank(t: seq<Slot>, n: nat): (r: nat)
    requires n <= |t|
    ensures r <= n
  {
    if n == 0 then 0 else Rank(t, n - 1) + if t[n - 1].Held() then 1 else 0
  }

  /** The held slots among the first n, in order. */
  function Listed(t: seq<Slot>, n: nat): (r: seq<Pointer>)
    requires n <= |t|
    ensures |r| == Rank(t, n)
  {
    if n == 0 then []
    else Listed(t, n - 1) + if t[n - 1].Held() then [Pointer(n - 1, t[n - 1].coords)] else []
  }

  /** The first slot at or after from that holds the touch, or the table's length. */
  function Find(t: seq<Slot>, id: int, from: nat): (i: nat)
    requires from <= |t|
    ensures from <= i <= |t|
    ensures i < |t| ==> t[i].Held() && t[i].touchId == id
    ensures forall j :: from <= j < i ==> !(t[j].Held() && t[j].touchId == id)
    decreases |t| - from
  {
    if from == |t| || (t[from].Held() && t[from].touchId == id) then from else Find(t, id, from + 1)
  }

  function FirstFree(t: seq<Slot>, from: nat): (i: nat)
    requires from <= |t|
    ensures from <= i <= |t|
    ensures i < |t| ==> !t[i].Held()
    ensures forall j :: from <= j < i ==> t[j].Held()
    decreases |t| - from
  {
    if from == |t| || !t[from].Held() then from else FirstFree(t, from + 1)
  }

  /** insertTouch: a known touch is updated and its rank returned; a new one takes the first free
      slot, whose number is returned; a full table refuses it. */
  function Insert(t: seq<Slot>, s: Slot): (r: (seq<Slot>, int))
    ensures |r.0| == |t|
  {
    var i := Find(t, s.touchId, 0);
    if i < |t| then (t[i := s], Rank(t, i)) else
      var f := FirstFree(t, 0);
      if f < |t| then (t[f := s], f) else (t, INVALID_POINTER_ID)
  }

  /** The held slot of a given rank, or the table's length. */
  function NthHeld(t: seq<Slot>, n: nat, from: nat): (i: nat)
    requires from <= |t|
    ensures from <= i <= |t|
    ensures i < |t| ==> t[i].Held()
    decreases |t| - from
  {
    if from == |t| then from
    else if !t[from].Held() then NthHeld(t, n, from + 1)
    else if n == 0 then from
    else NthHeld(t, n - 1, from + 1)
  }

  /** removeTouch: frees the held slot of the given rank. */
  function Remove(t: seq<Slot>, actionIndex: int): (r: seq<Slot>)
    ensures |r| == |t|
  {
    if actionIndex < 0 || actionIndex >= MAX_POINTER_COUNT then t else
      var i := NthHeld(t, actionIndex, 0);
      if i < |t| then t[i := FREE] else t
  }

  /** resetTouch: frees every held slot. */
  function Reset(t: seq<Slot>): (r: seq<Slot>)
    ensures |r| == |t| && forall i :: 0 <= i < |t| ==> r[i] == if t[i].Held() then FREE else t[i]
  {
    seq(|t|, (i: nat) requires i < |t| => if t[i].Held() then FREE else t[i])
  }

  // ------------------------------------------------------------------------
  // Ranks and slots
  // ------------------------------------------------------------------------

  predicate SamePattern(a: seq<Slot>, b: seq<Slot>, n: nat)
    requires n <= |a| && n <= |b|
  {
    forall i :: 0 <= i < n ==> a[i].Held() == b[i].Held()
  }

  lemma {:induction false} RankOfPattern(a: seq<Slot>, b: seq<Slot>, n: nat)
    requires n <= |a| && n <= |b| && SamePattern(a, b, n)
    ensures Rank(a, n) == Rank(b, n)
  {
    if n > 0 {
      RankOfPattern(a, b, n - 1);
    }
  }

  /** Below the first free slot the rank is the slot number. */
  lemma {:induction false} RankWhenFull(t: seq<Slot>, n: nat)
    requires n <= |t| && forall i :: 0 <= i < n ==> t[i].Held()
    ensures Rank(t, n) == n
  {
    if n > 0 {
      RankWhenFull(t, n - 1);
    }
  }

  /** A held slot stands in the pointer list at its rank. */
  lemma {:induction false} ListedAtRank(t: seq<Slot>, n: nat, i: nat)
    requires i < n <= |t| && t[i].Held()
    ensures Rank(t, i) < |Listed(t, n)| && Listed(t, n)[Rank(t, i)] == Pointer(i, t[i].coords)
    decreases n
  {
    if i < n - 1 {
      ListedAtRank(t, n - 1, i);
    }
  }

  /** The list holds nothing but held slots, in increasing order. */
  lemma {:induction false} ListedIncreasing(t: seq<Slot>, n: nat)
    requires n <= |t|
    ensures forall j :: 0 <= j < |Listed(t, n)| ==>
      0 <= Listed(t, n)[j].id < n && t[Listed(t, n)[j].id].Held()
      && Listed(t, n)[j].coords == t[Listed(t, n)[j].id].coords
    ensures forall j, k :: 0 <= j < k < |Listed(t, n)| ==> Listed(t, n)[j].id < Listed(t, n)[k].id
  {
    if n > 0 {
      ListedIncreasing(t, n - 1);
    }
  }

  /** removeTouch finds, for the rank of a held slot, that slot. */
  lemma {:induction false} NthHeldOfRank(t: seq<Slot>, i: nat, from: nat)
    requires from <= i < |t| && t[i].Held()
    ensures Rank(t, from) <= Rank(t, i) && NthHeld(t, Rank(t, i) - Rank(t, from), from) == i
    decreases i - from
  {
    if from < i {
      NthHeldOfRank(t, i, from + 1);
      assert Rank(t, from + 1) == Rank(t, from) + if t[from].Held() then 1 else 0;
    }
  }
}
