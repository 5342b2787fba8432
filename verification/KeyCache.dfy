/** The cache of key mappings: a list of mutable mapping objects over the database table. */
module KeyCache {
  import opened Collections
  import opened KeyMapping

  class ShoulderKeyInfo {
    var packageName: string
    var enabled: bool
    var rotation: int
    var left: (int, int)
    var right: (int, int)

    constructor (row: Row)
      ensures Value() == row
    {
      packageName, enabled, rotation, left, right := row.package, row.enabled, row.rotation, row.left, row.right;
    }

    function Value(): Row
      reads this
    {
      Row(packageName, rotation, enabled, left, right)
    }

    method SetAllCoordinate(left: (int, int), right: (int, int))
      modifies this
      ensures Value() == old(Value()).(left := left, right := right)
    {
      this.left, this.right := left, right;
    }

    method SetEnabled(enabled: bool)
      modifies this
      ensures Value() == old(Value()).(enabled := enabled)
    {
      this.enabled := enabled;
    }
  }

  function Rows(infos: seq<ShoulderKeyInfo>): (r: seq<Row>)
    reads infos
    ensures |r| == |infos|
    ensures forall i :: 0 <= i < |r| ==> r[i] == infos[i].Value()
  {
    seq(|infos|, i requires 0 <= i < |infos| reads infos => infos[i].Value())
  }

  lemma {:induction false} FindIs(rows: seq<Row>, package: string, rotation: int, i: nat)
    requires i <= |rows| && (i < |rows| ==> Same(rows[i], package, rotation))
    requires forall j :: 0 <= j < i ==> !Same(rows[j], package, rotation)
    ensures Find(rows, package, rotation) == i
  {
  }

  /** The key mapping table. */
  class ShoulderKeyDBHelper {
    var rows: seq<Row>

    constructor ()
      ensures rows == []
    {
      rows := [];
    }

    /** A query by key: its first row, if there is one. */
    method GetAppKeyInfo(package: string, rotation: int) returns (info: Option<Row>)
      ensures info == Lookup(rows, package, rotation)
    {
      for i := 0 to |rows|
        invariant forall j :: 0 <= j < i ==> !Same(rows[j], package, rotation)
      {
        if rows[i].package == package && rows[i].rotation == rotation {
          FindIs(rows, package, rotation, i);
          return Some(rows[i]);
        }
      }
      FindIs(rows, package, rotation, |rows|);
      return None;
    }

    method UpdateAppKeyInfo(info: Row)
      modifies this
      ensures rows == UpdateWhere(old(rows), info)
    {
      var i := 0;
      while i < |rows|
        invariant |rows| == |old(rows)| && 0 <= i <= |rows|
        invariant forall j :: 0 <= j < i ==> rows[j] == UpdateWhere(old(rows), info)[j]
        invariant forall j :: i <= j < |rows| ==> rows[j] == old(rows)[j]
      {
        if rows[i].package == info.package && rows[i].rotation == info.rotation {
          rows := rows[i := rows[i].(enabled := info.enabled, left := info.left, right := info.right)];
        }
        i := i + 1;
      }
    }

    method SaveAppKeyInfo(info: Row)
      modifies this
      ensures rows == Put(old(rows), info)
    {
      var known := GetAppKeyInfo(info.package, info.rotation);
      if known.Some? {
        UpdateAppKeyInfo(info);
      } else {
        rows := rows + [info];
      }
    }

    method DeleteAllAppsKeyInfo()
      modifies this
      ensures rows == []
    {
      rows := [];
    }

    /** The cursor loop: a new object for every row. */
    method GetAllAppsKeyInfo() returns (infos: seq<ShoulderKeyInfo>)
      ensures fresh(infos) && Distinct(infos) && Rows(infos) == rows
    {
      infos := [];
      for i := 0 to |rows|
        invariant fresh(infos) && Distinct(infos) && Rows(infos) == rows[..i]
      {
        var info := new ShoulderKeyInfo(rows[i]);
        infos := infos + [info];
      }
    }
  }

  class ShoulderKeyUtils {
    const db: ShoulderKeyDBHelper
    var infoList: seq<ShoulderKeyInfo>

    ghost predicate Valid()
      reads this
    {
      Distinct(infoList)
    }

    ghost function Cached(): (s: State)
      reads this, db, infoList
    {
      State(Rows(infoList), db.rows)
    }

    constructor (db: ShoulderKeyDBHelper)
      ensures Valid() && this.db == db && fresh(infoList) && Cached() == Run(db.rows, [])
    {
      this.db := db;
      infoList := [];
      new;
      infoList := db.GetAllAppsKeyInfo();
    }

    method GetAppInfo(package: string, rotation: int) returns (info: ShoulderKeyInfo?)
      requires Valid()
      ensures var i := Find(Rows(infoList), package, rotation);
        info == if i < |infoList| then infoList[i] else null
    {
      for i := 0 to |infoList|
        invariant forall j :: 0 <= j < i ==> !Same(Rows(infoList)[j], package, rotation)
      {
        if infoList[i].packageName == package && infoList[i].rotation == rotation {
          FindIs(Rows(infoList), package, rotation, i);
          return infoList[i];
        }
      }
      FindIs(Rows(infoList), package, rotation, |infoList|);
      return null;
    }

    method Add(row: Row)
      requires Valid()
      modifies this`infoList
      ensures Valid() && Rows(infoList) == old(Rows(infoList)) + [row]
      ensures |infoList| > 0 && infoList[..|infoList| - 1] == old(infoList) && fresh(infoList[|infoList| - 1])
    {
      ghost var before := Rows(infoList);
      var info := new ShoulderKeyInfo(row);
      infoList := infoList + [info];
      assert Rows(infoList) == before + [row];
    }

    method SaveCoordinate(package: string, rotation: int, left: (int, int), right: (int, int))
      requires Valid()
      modifies this`infoList, infoList
      ensures Valid() && db.rows == old(db.rows)
      ensures Rows(infoList) == Save(old(Rows(infoList)), package, rotation, left, right)
      ensures forall i :: 0 <= i < |infoList| ==> infoList[i] in old(infoList) || fresh(infoList[i])
    {
      ghost var before := Rows(infoList);
      var info := GetAppInfo(package, rotation);
      if info != null {
        info.SetAllCoordinate(left, right);
        assert Rows(infoList) == Save(before, package, rotation, left, right);
      } else {
        Add(Row(package, rotation, true, left, right));
      }
    }

    method EnableRotation(package: string, enabled: bool, rotation: int)
      requires Valid()
      modifies this`infoList, infoList
      ensures Valid() && Rows(infoList) == EnableOne(old(Rows(infoList)), package, enabled, rotation)
      ensures forall i :: 0 <= i < |infoList| ==> infoList[i] in old(infoList) || fresh(infoList[i])
    {
      ghost var before := Rows(infoList);
      var info := GetAppInfo(package, rotation);
      if info == null {
        Add(Row(package, rotation, enabled, (0, 0), (0, 0)));
      } else {
        info.SetEnabled(enabled);
        assert Rows(infoList) == EnableOne(before, package, enabled, rotation);
      }
    }

    method SetEnabledByPackage(package: string, enabled: bool)
      requires Valid()
      modifies this`infoList, infoList
      ensures Valid() && db.rows == old(db.rows)
      ensures Rows(infoList) == Enable(old(Rows(infoList)), package, enabled)
      ensures forall i :: 0 <= i < |infoList| ==> infoList[i] in old(infoList) || fresh(infoList[i])
    {
      ghost var before := Rows(infoList);
      for i := 0 to 2
        invariant Valid()
        invariant forall k :: 0 <= k < |infoList| ==> infoList[k] in old(infoList) || fresh(infoList[k])
        invariant i == 0 ==> Rows(infoList) == before
        invariant i == 1 ==> Rows(infoList) == EnableOne(before, package, enabled, 0)
        invariant i == 2 ==> Rows(infoList) == Enable(before, package, enabled)
      {
        EnableRotation(package, enabled, i);
      }
    }

    /** The flush: every cached mapping is saved, then the cache is loaded anew. */
    method SaveAllAppsCoordinate()
      requires Valid()
      modifies this`infoList, db
      ensures Valid() && fresh(infoList)
      ensures Cached() == Step(old(Cached()), FlushOp)
    {
      WriteBack();
      infoList := db.GetAllAppsKeyInfo();
    }

    method WriteBack()
      modifies db
      ensures db.rows == PutAll(old(db.rows), Rows(infoList), |infoList|)
    {
      ghost var table, cache := db.rows, Rows(infoList);
      for i := 0 to |infoList|
        invariant Rows(infoList) == cache && db.rows == PutAll(table, cache, i)
      {
        PutAllStep(table, cache, i + 1);
        db.SaveAppKeyInfo(infoList[i].Value());
      }
    }

    method ResetAllAppsCoordinate()
      requires Valid()
      modifies this`infoList, db
      ensures Valid() && infoList == [] && Cached() == Step(old(Cached()), ResetOp)
    {
      infoList := [];
      db.DeleteAllAppsKeyInfo();
    }
  }
}
