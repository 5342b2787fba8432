/** Small notions several models share. */
module Collections {

  datatype Option<T> = None | Some(value: T)

  predicate Distinct<T(==)>(s: seq<T>) {
    forall i, j :: 0 <= i < j < |s| ==> s[i] != s[j]
  }

  /** Each element of the set once, in some order. */
  ghost predicate Enumerates<T(!new)>(order: seq<T>, s: set<T>) {
    && (forall i, j :: 0 <= i < j < |order| ==> order[i] != order[j])
    && (forall i :: 0 <= i < |order| ==> order[i] in s)
    && (forall x :: x in s ==> x in order)
  }

  lemma {:induction false} EmptyWhen<T(!new)>(s: set<T>)
    requires forall x :: x !in s
    ensures s == {}
  {
    var none: set<T> := {};
    assert forall x :: x in s <==> x in none;
  }

  lemma {:induction false} Inhabited<T(!new)>(s: set<T>) returns (x: T)
    requires s != {}
    ensures x in s
  {
    if forall y :: y !in s {
      EmptyWhen(s);
      assert false;
    }
    x :| x in s;
  }
}
