/** Exchanging, for each name of a list, the first two elements that answer to it.
    What answers to a name, and which names are passed over, is a parameter. */
module Twins {

  datatype Rule<!E, !N> = Rule(hit: (E, N) -> bool, skip: N -> bool)

  /** The first element at or after from that answers to the name, or the length of the list. */
  function FirstMatch<E, N>(rule: Rule<E, N>, es: seq<E>, name: N, from: nat): (k: nat)
    requires from <= |es|
    ensures from <= k <= |es|
    ensures k < |es| ==> rule.hit(es[k], name)
    ensures forall i :: from <= i < k ==> !rule.hit(es[i], name)
    decreases |es| - from
  {
    if from == |es| || rule.hit(es[from], name) then from else FirstMatch(rule, es, name, from + 1)
  }

  datatype Twin = NoTwin | Twin(main: nat, backup: nat)

  /** The first two elements that answer to a name. */
  function TwinOf<E, N>(rule: Rule<E, N>, es: seq<E>, name: N): (t: Twin)
    ensures t.Twin? ==> t.main < t.backup < |es| && rule.hit(es[t.main], name) && rule.hit(es[t.backup], name)
  {
    var i := FirstMatch(rule, es, name, 0);
    if i == |es| then NoTwin else
      var j := FirstMatch(rule, es, name, i + 1);
      if j == |es| then NoTwin else Twin(i, j)
  }

  predicate HasTwin<E, N>(rule: Rule<E, N>, es: seq<E>, name: N) {
    !rule.skip(name) && TwinOf(rule, es, name).Twin?
  }

  function SwapTwin<E, N>(rule: Rule<E, N>, es: seq<E>, name: N): (r: seq<E>)
    ensures |r| == |es|
  {
    if !HasTwin(rule, es, name) then es else
      var t := TwinOf(rule, es, name);
      es[t.main := es[t.backup]][t.backup := es[t.main]]
  }

  /** All the exchanges, in the order of the list. */
  function SwapChain<E, N>(rule: Rule<E, N>, es: seq<E>, names: seq<N>): (r: seq<E>)
    ensures |r| == |es|
  {
    if names == [] then es
    else SwapTwin(rule, SwapChain(rule, es, names[..|names| - 1]), names[|names| - 1])
  }

  /** Some name is exchanged. */
  predicate HasBackup<E, N>(rule: Rule<E, N>, es: seq<E>, names: seq<N>) {
    names != [] && (HasBackup(rule, es, names[..|names| - 1]) || HasTwin(rule, es, names[|names| - 1]))
  }

  /** No element answers to both names. */
  ghost predicate Unrelated<E(!new), N>(rule: Rule<E, N>, n: N, m: N) {
    forall e: E :: !(rule.hit(e, n) && rule.hit(e, m))
  }

  /** No element answers to two processed names at different places of the list. */
  ghost predicate Independent<E(!new), N>(rule: Rule<E, N>, names: seq<N>) {
    forall x, y :: 0 <= x < y < |names| && !rule.skip(names[x]) && !rule.skip(names[y]) ==>
      Unrelated(rule, names[x], names[y])
  }

  // ------------------------------------------------------------------------
  // Exchanges leave every name its twins
  // ------------------------------------------------------------------------

  ghost predicate SameMatches<E, N>(rule: Rule<E, N>, a: seq<E>, b: seq<E>, name: N) {
    |a| == |b| && forall k :: 0 <= k < |a| ==> rule.hit(a[k], name) == rule.hit(b[k], name)
  }

  /** The twin of a name depends only on which elements answer to it. */
  lemma TwinOfMatches<E, N>(rule: Rule<E, N>, a: seq<E>, b: seq<E>, name: N)
    requires SameMatches(rule, a, b, name)
    ensures FirstMatch(rule, a, name, 0) == FirstMatch(rule, b, name, 0)
    ensures TwinOf(rule, a, name) == TwinOf(rule, b, name)
  {
    var i := FirstMatch(rule, a, name, 0);
    assert i == FirstMatch(rule, b, name, 0);
    if i < |a| {
      assert FirstMatch(rule, a, name, i + 1) == FirstMatch(rule, b, name, i + 1);
    }
  }

  ghost predicate Apart<E(!new), N>(rule: Rule<E, N>, names: seq<N>, m: N) {
    forall x :: 0 <= x < |names| && !rule.skip(names[x]) ==> names[x] == m || Unrelated(rule, names[x], m)
  }

  lemma {:induction false} SwapKeepsMatches<E(!new), N>(rule: Rule<E, N>, es: seq<E>, names: seq<N>, m: N)
    requires Apart(rule, names, m)
    ensures SameMatches(rule, SwapChain(rule, es, names), es, m)
  {
    if names != [] {
      SwapKeepsMatches(rule, es, names[..|names| - 1], m);
    }
  }

  lemma ChainKeepsTwin<E(!new), N>(rule: Rule<E, N>, es: seq<E>, names: seq<N>, m: N)
    requires Apart(rule, names, m)
    ensures TwinOf(rule, SwapChain(rule, es, names), m) == TwinOf(rule, es, m)
    ensures FirstMatch(rule, SwapChain(rule, es, names), m, 0) == FirstMatch(rule, es, m, 0)
  {
    SwapKeepsMatches(rule, es, names, m);
    TwinOfMatches(rule, SwapChain(rule, es, names), es, m);
  }

  lemma ListIsApart<E(!new), N>(rule: Rule<E, N>, names: seq<N>, x: nat)
    requires Independent(rule, names) && x < |names| && !rule.skip(names[x])
    ensures Apart(rule, names, names[x])
  {
    forall y | 0 <= y < |names| && !rule.skip(names[y])
      ensures names[y] == names[x] || Unrelated(rule, names[y], names[x])
    {
      if y < x {
        assert Unrelated(rule, names[y], names[x]);
      } else if x < y {
        assert Unrelated(rule, names[x], names[y]);
      }
    }
  }

  /** Earlier exchanges have not moved the twins of the name at hand. */
  lemma TwinSurvives<E(!new), N>(rule: Rule<E, N>, es: seq<E>, names: seq<N>, i: nat)
    requires Independent(rule, names) && i < |names|
    ensures HasTwin(rule, SwapChain(rule, es, names[..i]), names[i]) == HasTwin(rule, es, names[i])
    ensures HasTwin(rule, es, names[i]) ==>
      TwinOf(rule, SwapChain(rule, es, names[..i]), names[i]) == TwinOf(rule, es, names[i])
  {
    if !rule.skip(names[i]) {
      ListIsApart(rule, names, i);
      ChainKeepsTwin(rule, es, names[..i], names[i]);
    }
  }

  // ------------------------------------------------------------------------
  // The exchanges as a permutation of positions
  // ------------------------------------------------------------------------

  /** Where the element that ends up at position k came from. */
  function Partner<E, N>(rule: Rule<E, N>, es: seq<E>, names: seq<N>, k: nat): (p: nat)
    requires k < |es|
    ensures p < |es|
  {
    if names == [] then k else
      var init, n := names[..|names| - 1], names[|names| - 1];
      var t := TwinOf(rule, es, n);
      if HasTwin(rule, es, n) && k == t.main then t.backup
      else if HasTwin(rule, es, n) && k == t.backup then t.main
      else Partner(rule, es, init, k)
  }

  /** An element that answers to an unrelated name stays where it is. */
  lemma {:induction false} PartnerOfStranger<E(!new), N>(rule: Rule<E, N>, es: seq<E>, names: seq<N>, k: nat, m: N)
    requires k < |es| && rule.hit(es[k], m)
    requires forall x :: 0 <= x < |names| && !rule.skip(names[x]) ==> Unrelated(rule, names[x], m)
    ensures Partner(rule, es, names, k) == k
  {
    if names != [] {
      PartnerOfStranger(rule, es, names[..|names| - 1], k, m);
      assert rule.skip(names[|names| - 1]) || Unrelated(rule, names[|names| - 1], m);
    }
  }

  /** So does one that answers to no processed name at all, whatever the other names share. */
  lemma {:induction false} StrangerStays<E(!new), N>(rule: Rule<E, N>, es: seq<E>, names: seq<N>, k: nat)
    requires k < |es| && forall x :: 0 <= x < |names| && !rule.skip(names[x]) ==> !rule.hit(es[k], names[x])
    ensures SwapChain(rule, es, names)[k] == es[k]
  {
    if names != [] {
      StrangerStays(rule, es, names[..|names| - 1], k);
      assert rule.skip(names[|names| - 1]) || !rule.hit(es[k], names[|names| - 1]);
    }
  }

  /** The twins of the last name are strangers to the names before it. */
  lemma TwinsAreStrangers<E(!new), N>(rule: Rule<E, N>, es: seq<E>, names: seq<N>)
    requires Independent(rule, names) && names != [] && HasTwin(rule, es, names[|names| - 1])
    ensures Partner(rule, es, names[..|names| - 1], TwinOf(rule, es, names[|names| - 1]).main)
         == TwinOf(rule, es, names[|names| - 1]).main
    ensures Partner(rule, es, names[..|names| - 1], TwinOf(rule, es, names[|names| - 1]).backup)
         == TwinOf(rule, es, names[|names| - 1]).backup
  {
    var init, n := names[..|names| - 1], names[|names| - 1];
    PartnerOfStranger(rule, es, init, TwinOf(rule, es, n).main, n);
    PartnerOfStranger(rule, es, init, TwinOf(rule, es, n).backup, n);
  }

  lemma {:induction false} PartnerUndoesItself<E(!new), N>(rule: Rule<E, N>, es: seq<E>, names: seq<N>, k: nat)
    requires Independent(rule, names) && k < |es|
    ensures Partner(rule, es, names, Partner(rule, es, names, k)) == k
  {
    if names != [] {
      PartnerUndoesItself(rule, es, names[..|names| - 1], k);
      if HasTwin(rule, es, names[|names| - 1]) {
        TwinsAreStrangers(rule, es, names);
      }
    }
  }

  lemma {:induction false} SwapChainAt<E(!new), N>(rule: Rule<E, N>, es: seq<E>, names: seq<N>)
    requires Independent(rule, names)
    ensures forall k :: 0 <= k < |es| ==> SwapChain(rule, es, names)[k] == es[Partner(rule, es, names, k)]
  {
    if names != [] {
      SwapChainAt(rule, es, names[..|names| - 1]);
      TwinSurvives(rule, es, names, |names| - 1);
      if HasTwin(rule, es, names[|names| - 1]) {
        TwinsAreStrangers(rule, es, names);
      }
    }
  }

  /** Partner is settled by the twins alone. */
  lemma {:induction false} PartnerAfterSwap<E(!new), N>(rule: Rule<E, N>, es: seq<E>, all: seq<N>, names: seq<N>,
                                                        k: nat)
    requires k < |es| && Independent(rule, all) && names <= all
    ensures Partner(rule, SwapChain(rule, es, all), names, k) == Partner(rule, es, names, k)
  {
    if names != [] {
      PartnerAfterSwap(rule, es, all, names[..|names| - 1], k);
      if !rule.skip(names[|names| - 1]) {
        ListIsApart(rule, all, |names| - 1);
        ChainKeepsTwin(rule, es, all, names[|names| - 1]);
      }
    }
  }

  // ------------------------------------------------------------------------
  // Main results
  // ------------------------------------------------------------------------

  /** Exchanging twice is the identity. */
  lemma SwapChainInvolution<E(!new), N>(rule: Rule<E, N>, es: seq<E>, names: seq<N>)
    requires Independent(rule, names)
    ensures SwapChain(rule, SwapChain(rule, es, names), names) == es
  {
    var once := SwapChain(rule, es, names);
    SwapChainAt(rule, es, names);
    SwapChainAt(rule, once, names);
    forall k | 0 <= k < |es|
      ensures SwapChain(rule, once, names)[k] == es[k]
    {
      PartnerAfterSwap(rule, es, names, names, k);
      PartnerUndoesItself(rule, es, names, k);
    }
  }

  /** No element is lost or duplicated. */
  lemma {:induction false} SwapChainPermutes<E(!new), N>(rule: Rule<E, N>, es: seq<E>, names: seq<N>)
    ensures multiset(SwapChain(rule, es, names)) == multiset(es)
  {
    if names != [] {
      SwapChainPermutes(rule, es, names[..|names| - 1]);
    }
  }

  lemma {:induction false} PartnerOfTwin<E(!new), N>(rule: Rule<E, N>, es: seq<E>, names: seq<N>, x: nat)
    requires Independent(rule, names) && x < |names| && HasTwin(rule, es, names[x])
    ensures Partner(rule, es, names, TwinOf(rule, es, names[x]).main) == TwinOf(rule, es, names[x]).backup
    ensures Partner(rule, es, names, TwinOf(rule, es, names[x]).backup) == TwinOf(rule, es, names[x]).main
  {
    if x < |names| - 1 {
      PartnerOfTwin(rule, es, names[..|names| - 1], x);
      assert rule.skip(names[|names| - 1]) || Unrelated(rule, names[x], names[|names| - 1]);
    }
  }

  /** After the exchanges every name that has twins finds the former second first, at the place
      of the former first; and its twins are still the same two places. */
  lemma BackupBecomesMain<E(!new), N>(rule: Rule<E, N>, es: seq<E>, names: seq<N>, x: nat)
    requires Independent(rule, names) && x < |names| && HasTwin(rule, es, names[x])
    ensures var t := TwinOf(rule, es, names[x]);
      var r := SwapChain(rule, es, names);
      && FirstMatch(rule, r, names[x], 0) == t.main && TwinOf(rule, r, names[x]) == t
      && r[t.main] == es[t.backup] && r[t.backup] == es[t.main]
  {
    ListIsApart(rule, names, x);
    ChainKeepsTwin(rule, es, names, names[x]);
    SwapChainAt(rule, es, names);
    PartnerOfTwin(rule, es, names, x);
  }

  /** Something is exchanged exactly when some processed name has twins. */
  lemma {:induction false} HasBackupMeans<E(!new), N>(rule: Rule<E, N>, es: seq<E>, names: seq<N>)
    ensures HasBackup(rule, es, names) <==> exists x :: 0 <= x < |names| && HasTwin(rule, es, names[x])
    ensures !HasBackup(rule, es, names) ==> SwapChain(rule, es, names) == es
  {
    if names != [] {
      var init := names[..|names| - 1];
      HasBackupMeans(rule, es, init);
      if HasBackup(rule, es, init) {
        var x :| 0 <= x < |init| && HasTwin(rule, es, init[x]);
        assert HasTwin(rule, es, names[x]);
      }
      forall x | 0 <= x < |names| && HasTwin(rule, es, names[x])
        ensures HasBackup(rule, es, names)
      {
        assert x < |init| ==> init[x] == names[x];
      }
    }
  }
}
