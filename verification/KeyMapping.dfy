/** The key mappings as rows: a write-back cache over a table, and what runs of the two keep. */
module KeyMapping {
  import opened Collections

  /** A mapping of the two keys for one package and one of the two rotations. */
  datatype Row = Row(package: string, rotation: int, enabled: bool, left: (int, int), right: (int, int))

  predicate Same(r: Row, package: string, rotation: int) {
    r.package == package && r.rotation == rotation
  }

  /** The first row of a key, or the number of rows. */
  function Find(rows: seq<Row>, package: string, rotation: int): (i: nat)
    ensures i <= |rows|
    ensures i < |rows| ==> Same(rows[i], package, rotation)
    ensures forall j :: 0 <= j < i ==> !Same(rows[j], package, rotation)
  {
    if rows == [] || Same(rows[0], package, rotation) then 0 else Find(rows[1..], package, rotation) + 1
  }

  function Lookup(rows: seq<Row>, package: string, rotation: int): Option<Row> {
    var i := Find(rows, package, rotation);
    if i < |rows| then Some(rows[i]) else None
  }

  predicate Unique(rows: seq<Row>) {
    forall i, j :: 0 <= i < j < |rows| ==> !Same(rows[j], rows[i].package, rows[i].rotation)
  }

  // ------------------------------------------------------------------------
  // The operations
  // ------------------------------------------------------------------------

  function UpdateWhere(rows: seq<Row>, row: Row): (r: seq<Row>)
    ensures |r| == |rows|
    ensures forall i :: 0 <= i < |r| ==> r[i] == if Same(rows[i], row.package, row.rotation) then row else rows[i]
  {
    seq(|rows|, i requires 0 <= i < |rows| => if Same(rows[i], row.package, row.rotation) then row else rows[i])
  }

  /** saveAppKeyInfo: update the rows of the key, or insert one. */
  function Put(rows: seq<Row>, row: Row): seq<Row> {
    if Lookup(rows, row.package, row.rotation).Some? then UpdateWhere(rows, row) else rows + [row]
  }

  function PutAll(table: seq<Row>, rows: seq<Row>, n: nat): seq<Row>
    requires n <= |rows|
  {
    if n == 0 then table else Put(PutAll(table, rows, n - 1), rows[n - 1])
  }

  lemma {:induction false} PutAllStep(table: seq<Row>, rows: seq<Row>, n: nat)
    requires 0 < n <= |rows|
    ensures PutAll(table, rows, n) == Put(PutAll(table, rows, n - 1), rows[n - 1])
  {
  }

  /** A known key gets new coordinates; a new key starts enabled. */
  function Save(cache: seq<Row>, package: string, rotation: int, left: (int, int), right: (int, int)): seq<Row> {
    var i := Find(cache, package, rotation);
    if i < |cache| then cache[i := cache[i].(left := left, right := right)]
    else cache + [Row(package, rotation, true, left, right)]
  }

  function EnableOne(cache: seq<Row>, package: string, enabled: bool, rotation: int): seq<Row> {
    var i := Find(cache, package, rotation);
    if i < |cache| then cache[i := cache[i].(enabled := enabled)]
    else cache + [Row(package, rotation, enabled, (0, 0), (0, 0))]
  }

  function Enable(cache: seq<Row>, package: string, enabled: bool): seq<Row> {
    EnableOne(EnableOne(cache, package, enabled, 0), package, enabled, 1)
  }

  datatype State = State(cache: seq<Row>, table: seq<Row>)

  datatype Op =
    | SaveOp(package: string, rotation: int, left: (int, int), right: (int, int))
    | EnableOp(package: string, enabled: bool)
    | FlushOp
    | ResetOp

  function Step(s: State, op: Op): State {
    match op
    case SaveOp(package, rotation, left, right) => State(Save(s.cache, package, rotation, left, right), s.table)
    case EnableOp(package, enabled) => State(Enable(s.cache, package, enabled), s.table)
    case FlushOp => var t := PutAll(s.table, s.cache, |s.cache|); State(t, t)
    case ResetOp => State([], [])
  }

  /** The constructor loads the table into the cache. */
  function Run(table: seq<Row>, ops: seq<Op>): State {
    if ops == [] then State(table, table) else Step(Run(table, ops[..|ops| - 1]), ops[|ops| - 1])
  }

  // ------------------------------------------------------------------------
  // What a key maps to afterwards
  // ------------------------------------------------------------------------

  lemma {:induction false} LookupIs(rows: seq<Row>, package: string, rotation: int, i: nat)
    requires i < |rows| && Same(rows[i], package, rotation) && forall j :: 0 <= j < i ==>
      !Same(rows[j], package, rotation)
    ensures Find(rows, package, rotation) == i && Lookup(rows, package, rotation) == Some(rows[i])
  {
  }

  lemma {:induction false} LookupNone(rows: seq<Row>, package: string, rotation: int)
    requires forall j :: 0 <= j < |rows| ==> !Same(rows[j], package, rotation)
    ensures Lookup(rows, package, rotation) == None
  {
  }

  /** One row replaced by one of the same key, or appended under a new key. */
  lemma {:induction false} LookupChanged(rows: seq<Row>, now: seq<Row>, row: Row, package: string, rotation: int)
    requires var i := Find(rows, row.package, row.rotation); now == if i < |rows| then rows[i := row] else rows + [row]
    ensures Lookup(now, package, rotation) ==
      if Same(row, package, rotation) then Some(row) else Lookup(rows, package, rotation)
  {
    var i := Find(rows, row.package, row.rotation);
    if Same(row, package, rotation) {
      LookupIs(now, package, rotation, i);
    } else {
      var k := Find(rows, package, rotation);
      if k < |rows| {
        LookupIs(now, package, rotation, k);
      } else {
        LookupNone(now, package, rotation);
      }
    }
  }

  lemma {:induction false} LookupPut(rows: seq<Row>, row: Row, package: string, rotation: int)
    ensures Lookup(Put(rows, row), package, rotation) ==
      if Same(row, package, rotation) then Some(row) else Lookup(rows, package, rotation)
  {
    var now, i := Put(rows, row), Find(rows, row.package, row.rotation);
    if i == |rows| {
      LookupChanged(rows, now, row, package, rotation);
    } else if Same(row, package, rotation) {
      LookupIs(now, package, rotation, i);
    } else if Find(rows, package, rotation) < |rows| {
      LookupIs(now, package, rotation, Find(rows, package, rotation));
    } else {
      LookupNone(now, package, rotation);
    }
  }

  /** A save sets the coordinates of its key and keeps its flag, which a new key has set. */
  lemma {:induction false} LookupSave(cache: seq<Row>, op: Op, package: string, rotation: int)
    requires op.SaveOp?
    ensures Lookup(Save(cache, op.package, op.rotation, op.left, op.right), package, rotation) ==
      var before := Lookup(cache, package, rotation);
      if package == op.package && rotation == op.rotation
      then Some(Row(package, rotation, if before.Some? then before.value.enabled else true, op.left, op.right))
      else before
  {
    var i := Find(cache, op.package, op.rotation);
    var row := if i < |cache| then cache[i].(left := op.left, right := op.right)
               else Row(op.package, op.rotation, true, op.left, op.right);
    LookupChanged(cache, Save(cache, op.package, op.rotation, op.left, op.right), row, package, rotation);
  }

  lemma {:induction false} LookupEnableOne(cache: seq<Row>, of: string, enabled: bool, which: int, package: string,
                                           rotation: int)
    ensures var after := Lookup(EnableOne(cache, of, enabled, which), package, rotation);
      var before := Lookup(cache, package, rotation);
      after == if package != of || rotation != which then before
               else if before.Some? then Some(before.value.(enabled := enabled))
               else Some(Row(of, which, enabled, (0, 0), (0, 0)))
  {
    var i := Find(cache, of, which);
    var row := if i < |cache| then cache[i].(enabled := enabled) else Row(of, which, enabled, (0, 0), (0, 0));
    LookupChanged(cache, EnableOne(cache, of, enabled, which), row, package, rotation);
  }

  /** Enabling or disabling a package sets the flag of both its rotations, keeps the coordinates of a known
      one, and touches nothing else. */
  lemma {:induction false} LookupEnable(cache: seq<Row>, of: string, enabled: bool, package: string, rotation: int)
    ensures var after := Lookup(Enable(cache, of, enabled), package, rotation);
      var before := Lookup(cache, package, rotation);
      after == if package != of || (rotation != 0 && rotation != 1) then before
               else if before.Some? then Some(before.value.(enabled := enabled))
               else Some(Row(of, rotation, enabled, (0, 0), (0, 0)))
  {
    LookupEnableOne(cache, of, enabled, 0, package, rotation);
    LookupEnableOne(EnableOne(cache, of, enabled, 0), of, enabled, 1, package, rotation);
  }

  /** After the first n rows were put, the last of them with a key decides. */
  lemma {:induction false} LookupPutAll(table: seq<Row>, rows: seq<Row>, n: nat, package: string, rotation: int)
    requires n <= |rows| && Unique(rows)
    ensures Lookup(PutAll(table, rows, n), package, rotation) ==
      if Find(rows, package, rotation) < n then Lookup(rows, package, rotation) else Lookup(table, package, rotation)
  {
    if n > 0 {
      LookupPutAll(table, rows, n - 1, package, rotation);
      LookupPut(PutAll(table, rows, n - 1), rows[n - 1], package, rotation);
      if Same(rows[n - 1], package, rotation) {
        LookupIs(rows, package, rotation, n - 1);
      }
    }
  }

  // ------------------------------------------------------------------------
  // Invariants of every run
  // ------------------------------------------------------------------------

  /** Unique keys in both, and nothing in the table that the cache does not know. */
  ghost predicate Good(s: State) {
    && Unique(s.cache) && Unique(s.table)
    && forall p, r :: Lookup(s.table, p, r).Some? ==> Lookup(s.cache, p, r).Some?
  }

  lemma {:induction false} ChangedUnique(rows: seq<Row>, row: Row)
    requires Unique(rows)
    ensures var i := Find(rows, row.package, row.rotation);
      Unique(if i < |rows| then rows[i := row] else rows + [row])
  {
  }

  lemma {:induction false} PutUnique(rows: seq<Row>, row: Row)
    requires Unique(rows)
    ensures Unique(Put(rows, row))
  {
  }

  lemma {:induction false} PutAllUnique(table: seq<Row>, rows: seq<Row>, n: nat)
    requires Unique(table) && n <= |rows|
    ensures Unique(PutAll(table, rows, n))
  {
    if n > 0 {
      PutAllUnique(table, rows, n - 1);
      PutUnique(PutAll(table, rows, n - 1), rows[n - 1]);
    }
  }

  lemma {:induction false} SaveGood(s: State, op: Op)
    requires Good(s) && op.SaveOp?
    ensures Good(Step(s, op))
  {
    var i := Find(s.cache, op.package, op.rotation);
    var row := if i < |s.cache| then s.cache[i].(left := op.left, right := op.right)
               else Row(op.package, op.rotation, true, op.left, op.right);
    ChangedUnique(s.cache, row);
    forall p, r | Lookup(s.table, p, r).Some?
      ensures Lookup(Step(s, op).cache, p, r).Some?
    {
      LookupSave(s.cache, op, p, r);
    }
  }

  lemma {:induction false} EnableOneUnique(cache: seq<Row>, package: string, enabled: bool, rotation: int)
    requires Unique(cache)
    ensures Unique(EnableOne(cache, package, enabled, rotation))
  {
    var i := Find(cache, package, rotation);
    ChangedUnique(cache, if i < |cache| then cache[i].(enabled := enabled)
                         else Row(package, rotation, enabled, (0, 0), (0, 0)));
  }

  lemma {:induction false} StepGood(s: State, op: Op)
    requires Good(s)
    ensures Good(Step(s, op))
  {
    match op {
      case SaveOp(_, _, _, _) =>
        SaveGood(s, op);
      case EnableOp(package, enabled) =>
        EnableOneUnique(s.cache, package, enabled, 0);
        EnableOneUnique(EnableOne(s.cache, package, enabled, 0), package, enabled, 1);
        forall p, r | Lookup(s.table, p, r).Some?
          ensures Lookup(Step(s, op).cache, p, r).Some?
        {
          LookupEnable(s.cache, package, enabled, p, r);
        }
      case FlushOp =>
        PutAllUnique(s.table, s.cache, |s.cache|);
      case ResetOp =>
    }
  }

  /** A flush loses nothing and adds nothing: cache and table both map what the cache mapped. */
  lemma {:induction false} FlushAgrees(s: State, package: string, rotation: int)
    requires Good(s)
    ensures var t := Step(s, FlushOp);
      t.cache == t.table && Lookup(t.table, package, rotation) == Lookup(s.cache, package, rotation)
  {
    LookupPutAll(s.table, s.cache, |s.cache|, package, rotation);
  }

  lemma {:induction false} RunGood(table: seq<Row>, ops: seq<Op>)
    requires Unique(table)
    ensures Good(Run(table, ops))
  {
    if ops != [] {
      RunGood(table, ops[..|ops| - 1]);
      StepGood(Run(table, ops[..|ops| - 1]), ops[|ops| - 1]);
    }
  }

  // ------------------------------------------------------------------------
  // Do the two rotations of a package agree on being enabled?
  // ------------------------------------------------------------------------

  /** Both rotations of a package that has both are enabled, or neither. */
  ghost predicate Agrees(rows: seq<Row>) {
    forall p :: AgreesOn(rows, p)
  }

  predicate AgreesOn(rows: seq<Row>, package: string) {
    var a, b := Lookup(rows, package, 0), Lookup(rows, package, 1);
    a.Some? && b.Some? ==> a.value.enabled == b.value.enabled
  }

  /** A package with a disabled rotation has both. */
  ghost predicate Paired(rows: seq<Row>) {
    forall p :: PairedOn(rows, p)
  }

  predicate PairedOn(rows: seq<Row>, package: string) {
    var a, b := Lookup(rows, package, 0), Lookup(rows, package, 1);
    && (a.Some? && !a.value.enabled ==> b.Some?)
    && (b.Some? && !b.value.enabled ==> a.Some?)
  }

  /** Rotations are told apart as 0 and 1. */
  predicate TwoRotations(op: Op) {
    op.SaveOp? ==> op.rotation == 0 || op.rotation == 1
  }

  /** The guard of a save that keeps the flags in agreement: the key is known, or its sibling is not disabled. */
  predicate SaveKeeps(rows: seq<Row>, package: string, rotation: int) {
    var sibling := Lookup(rows, package, 1 - rotation);
    Lookup(rows, package, rotation).Some? || sibling.None? || sibling.value.enabled
  }

  /** A save keeps the flags in agreement exactly under its guard: a new key starts enabled, whatever
      its sibling is. */
  lemma {:induction false} SaveAgreesIff(cache: seq<Row>, op: Op)
    requires Agrees(cache) && op.SaveOp? && TwoRotations(op)
    ensures Agrees(Save(cache, op.package, op.rotation, op.left, op.right))
      <==> SaveKeeps(cache, op.package, op.rotation)
  {
    var now := Save(cache, op.package, op.rotation, op.left, op.right);
    forall p
      ensures AgreesOn(now, p) <==> p != op.package || SaveKeeps(cache, op.package, op.rotation)
    {
      LookupSave(cache, op, p, 0);
      LookupSave(cache, op, p, 1);
      assert AgreesOn(cache, p);
    }
    assert AgreesOn(now, op.package) <==> SaveKeeps(cache, op.package, op.rotation);
  }

  /** An agreeing table with one disabled row, and a save for the other rotation: the flags part. */
  lemma {:induction false} FlagsCanPart()
    ensures var table := [Row("p", 0, false, (1, 1), (2, 2))];
      && Unique(table) && Agrees(table)
      && !Agrees(Run(table, [SaveOp("p", 1, (3, 3), (4, 4))]).cache)
  {
    var table, op := [Row("p", 0, false, (1, 1), (2, 2))], SaveOp("p", 1, (3, 3), (4, 4));
    forall p
      ensures AgreesOn(table, p)
    {
      LookupNone(table, p, 1);
    }
    assert [op][..0] == [];
    assert Run(table, [op]) == Step(State(table, table), op);
    LookupIs(table, "p", 0, 0);
    LookupNone(table, "p", 1);
    SaveAgreesIff(table, op);
  }

  lemma {:induction false} SaveAgreesPaired(cache: seq<Row>, op: Op)
    requires Agrees(cache) && Paired(cache) && op.SaveOp? && TwoRotations(op)
    ensures Agrees(Step(State(cache, cache), op).cache) && Paired(Step(State(cache, cache), op).cache)
  {
    var now := Save(cache, op.package, op.rotation, op.left, op.right);
    assert PairedOn(cache, op.package);
    SaveAgreesIff(cache, op);
    forall p
      ensures PairedOn(now, p)
    {
      LookupSave(cache, op, p, 0);
      LookupSave(cache, op, p, 1);
      assert PairedOn(cache, p);
    }
  }

  lemma {:induction false} EnableAgreesPaired(cache: seq<Row>, package: string, enabled: bool)
    requires Agrees(cache) && Paired(cache)
    ensures Agrees(Enable(cache, package, enabled)) && Paired(Enable(cache, package, enabled))
  {
    var now := Enable(cache, package, enabled);
    forall p
      ensures AgreesOn(now, p) && PairedOn(now, p)
    {
      LookupEnable(cache, package, enabled, p, 0);
      LookupEnable(cache, package, enabled, p, 1);
      assert AgreesOn(cache, p) && PairedOn(cache, p);
    }
  }

  lemma {:induction false} FlushAgreesPaired(s: State)
    requires Good(s) && Agrees(s.cache) && Paired(s.cache)
    ensures Agrees(Step(s, FlushOp).cache) && Paired(Step(s, FlushOp).cache)
  {
    var now := Step(s, FlushOp).cache;
    forall p
      ensures AgreesOn(now, p) && PairedOn(now, p)
    {
      FlushAgrees(s, p, 0);
      FlushAgrees(s, p, 1);
      assert AgreesOn(s.cache, p) && PairedOn(s.cache, p);
    }
  }

  lemma {:induction false} RunAgrees(table: seq<Row>, ops: seq<Op>)
    requires Unique(table) && Agrees(table) && Paired(table) && forall i :: 0 <= i < |ops| ==> TwoRotations(ops[i])
    ensures Agrees(Run(table, ops).cache) && Paired(Run(table, ops).cache)
  {
    if ops != [] {
      var init, op := ops[..|ops| - 1], ops[|ops| - 1];
      RunAgrees(table, init);
      RunGood(table, init);
      var s := Run(table, init);
      match op {
        case SaveOp(_, _, _, _) => SaveAgreesPaired(s.cache, op);
        case EnableOp(package, enabled) => EnableAgreesPaired(s.cache, package, enabled);
        case FlushOp => FlushAgreesPaired(s);
        case ResetOp =>
      }
    }
  }

  /** The flags of a package agree after every run, for a table that starts agreeing, exactly when no
      package starts with a single, disabled rotation. An empty table is such a table. */
  lemma {:induction false} FlagsAgreeIff(table: seq<Row>)
    requires Unique(table) && Agrees(table)
    ensures Paired(table) <==>
      forall ops: seq<Op> :: (forall i :: 0 <= i < |ops| ==> TwoRotations(ops[i])) ==> Agrees(Run(table, ops).cache)
  {
    if Paired(table) {
      forall ops: seq<Op> | forall i :: 0 <= i < |ops| ==> TwoRotations(ops[i])
        ensures Agrees(Run(table, ops).cache)
      {
        RunAgrees(table, ops);
      }
    } else {
      var p :| !PairedOn(table, p);
      var missing := if Lookup(table, p, 0).None? then 0 else 1;
      var op := SaveOp(p, missing, (1, 1), (2, 2));
      SaveAgreesIff(table, op);
      assert [op][..0] == [];
      assert Run(table, [op]) == Step(State(table, table), op);
      assert !Agrees(Run(table, [op]).cache);
    }
  }
}
