/** Which partitions the boot-chain swap moves, name by name. */
module BootChain {
  import opened Bytes
  import opened Twins
  import opened GptEntries
  import opened GptEntryArray

  /** An entry carries a name or the name of its backup. */
  predicate Answers(e: Entry, name: string) {
    PartitionName(e) == name || PartitionName(e) == name + "bak"
  }

  function SwappedEntry(rule: Rule<Entry, string>, a: seq<byte>, size: nat, n: nat, k: nat): Entry
    requires Strided(|a|, size, n) && k < n
  {
    EntryAt(SwapChainBytes(rule, a, size, n, PTN_SWAP_LIST), size, n, k)
  }

  lemma StrangerEntryStays(rule: Rule<Entry, string>, a: seq<byte>, size: nat, n: nat, k: nat)
    requires Strided(|a|, size, n) && k < n
    requires forall x :: 0 <= x < |PTN_SWAP_LIST| && !rule.skip(PTN_SWAP_LIST[x]) ==>
      !rule.hit(EntryAt(a, size, n, k), PTN_SWAP_LIST[x])
    ensures SwappedEntry(rule, a, size, n, k) == EntryAt(a, size, n, k)
  {
    BytesFollowList(rule, a, size, n, PTN_SWAP_LIST);
    StrangerStays(rule, EntriesOf(a, size, n), PTN_SWAP_LIST, k);
  }

  /** An entry that no name of the list or its backup form names stays where it is. */
  lemma OthersStay(rule: Rule<Entry, string>, ufs: bool, a: seq<byte>, size: nat, n: nat, k: nat)
    requires Follows(rule, ufs) && Strided(|a|, size, n) && k < n
    requires forall x :: 0 <= x < |PTN_SWAP_LIST| ==> !Answers(EntryAt(a, size, n, k), PTN_SWAP_LIST[x])
    ensures SwappedEntry(rule, a, size, n, k) == EntryAt(a, size, n, k)
  {
    var e := EntryAt(a, size, n, k);
    forall x | 0 <= x < |PTN_SWAP_LIST|
      ensures !rule.hit(e, PTN_SWAP_LIST[x])
    {
      assert !Answers(e, PTN_SWAP_LIST[x]);
      assert rule.hit(e, PTN_SWAP_LIST[x]) == Matches(e, PTN_SWAP_LIST[x]);
    }
    StrangerEntryStays(rule, a, size, n, k);
  }

  /** A name of the list, or its backup form, keeps the list name's first letter. */
  lemma FirstLetter(e: Entry, x: nat)
    requires x < |PTN_SWAP_LIST| && Matches(e, PTN_SWAP_LIST[x])
    ensures PartitionName(e) != [] && PartitionName(e)[0] == PTN_SWAP_LIST[x][0]
  {
    SwapListTags(x);
  }

  /** On UFS the xbl partitions stay where they are, the boot LUN takes care of them; the multi-image
      partitions stay on every device. */
  lemma LeftToOthers(rule: Rule<Entry, string>, ufs: bool, a: seq<byte>, size: nat, n: nat, k: nat)
    requires Follows(rule, ufs) && Strided(|a|, size, n) && k < n
    requires var name := PartitionName(EntryAt(a, size, n, k));
      (ufs && "xbl" <= name) || "multiimgoem" <= name || "multiimgqti" <= name
    ensures SwappedEntry(rule, a, size, n, k) == EntryAt(a, size, n, k)
  {
    var e := EntryAt(a, size, n, k);
    assert PartitionName(e)[0] == 'x' || PartitionName(e)[0] == 'm';
    forall x | 0 <= x < |PTN_SWAP_LIST| && !rule.skip(PTN_SWAP_LIST[x])
      ensures !rule.hit(e, PTN_SWAP_LIST[x])
    {
      assert rule.skip(PTN_SWAP_LIST[x]) == Skipped(ufs, PTN_SWAP_LIST[x]);
      assert rule.hit(e, PTN_SWAP_LIST[x]) == Matches(e, PTN_SWAP_LIST[x]);
      SwapListTags(x);
      if x < 2 {
        XblNames(x);
      }
      if rule.hit(e, PTN_SWAP_LIST[x]) {
        FirstLetter(e, x);
        assert false;
      }
    }
    StrangerEntryStays(rule, a, size, n, k);
  }

  lemma XblNames(x: nat)
    requires x < 2
    ensures "xbl" <= PTN_SWAP_LIST[x]
  {
    assert PTN_SWAP_LIST[0] == "xbl" && PTN_SWAP_LIST[1] == "xbl_config";
  }

  /** Every other name of the list, xbl and xbl_config only off UFS: the first two entries that carry the
      name or its backup's name change places. */
  lemma BackupTakesOver(rule: Rule<Entry, string>, ufs: bool, a: seq<byte>, size: nat, n: nat, name: string,
                        i: nat, j: nat)
    requires Follows(rule, ufs) && Independent(rule, PTN_SWAP_LIST) && Strided(|a|, size, n)
    requires Swappable(ufs, name)
    requires i < j < n && Answers(EntryAt(a, size, n, i), name) && Answers(EntryAt(a, size, n, j), name)
    requires forall k :: 0 <= k < j && k != i ==> !Answers(EntryAt(a, size, n, k), name)
    ensures SwappedEntry(rule, a, size, n, i) == EntryAt(a, size, n, j)
    ensures SwappedEntry(rule, a, size, n, j) == EntryAt(a, size, n, i)
  {
    var es := EntriesOf(a, size, n);
    var x: nat :| x < |PTN_SWAP_LIST| && PTN_SWAP_LIST[x] == name;
    Processed(ufs, x);
    assert rule.skip(name) == Skipped(ufs, name);
    FirstTwo(rule, ufs, es, name, i, j);
    BytesFollowList(rule, a, size, n, PTN_SWAP_LIST);
    BackupBecomesMain(rule, es, PTN_SWAP_LIST, x);
  }

  /** A name of the list that the swap does not leave to others. */
  predicate Swappable(ufs: bool, name: string) {
    && name in PTN_SWAP_LIST && name != "multiimgoem" && name != "multiimgqti"
    && (ufs ==> name != "xbl" && name != "xbl_config")
  }

  /** Two entries carry the name or its backup's name. */
  predicate Twice(es: seq<Entry>, name: string, i: nat, j: nat) {
    i < j < |es| && Answers(es[i], name) && Answers(es[j], name)
  }

  lemma TwiceIsTwin(rule: Rule<Entry, string>, ufs: bool, es: seq<Entry>, name: string)
    requires Follows(rule, ufs) && !rule.skip(name)
    ensures HasTwin(rule, es, name) <==> exists i, j :: Twice(es, name, i, j)
  {
    forall k | 0 <= k < |es|
      ensures rule.hit(es[k], name) == Answers(es[k], name)
    {
      assert rule.hit(es[k], name) == Matches(es[k], name);
    }
    var t := TwinOf(rule, es, name);
    if t.Twin? {
      assert Twice(es, name, t.main, t.backup);
    }
  }

  ghost predicate CarriedTwice(ufs: bool, es: seq<Entry>, name: string) {
    Swappable(ufs, name) && exists i, j :: Twice(es, name, i, j)
  }

  lemma ListNameCarriedTwice(rule: Rule<Entry, string>, ufs: bool, es: seq<Entry>, x: nat)
    requires Follows(rule, ufs) && x < |PTN_SWAP_LIST|
    ensures HasTwin(rule, es, PTN_SWAP_LIST[x]) <==> CarriedTwice(ufs, es, PTN_SWAP_LIST[x])
  {
    assert rule.skip(PTN_SWAP_LIST[x]) == Skipped(ufs, PTN_SWAP_LIST[x]);
    SwappableIff(ufs, x);
    if !Skipped(ufs, PTN_SWAP_LIST[x]) {
      TwiceIsTwin(rule, ufs, es, PTN_SWAP_LIST[x]);
    }
  }

  /** The swap finds something to exchange, and returns 0, exactly when such a name is carried twice. */
  lemma ExchangesIff(rule: Rule<Entry, string>, ufs: bool, es: seq<Entry>)
    requires Follows(rule, ufs)
    ensures HasBackup(rule, es, PTN_SWAP_LIST) <==> exists name :: CarriedTwice(ufs, es, name)
  {
    HasBackupMeans(rule, es, PTN_SWAP_LIST);
    if HasBackup(rule, es, PTN_SWAP_LIST) {
      var x: nat :| x < |PTN_SWAP_LIST| && HasTwin(rule, es, PTN_SWAP_LIST[x]);
      ListNameCarriedTwice(rule, ufs, es, x);
    }
    if name :| CarriedTwice(ufs, es, name) {
      var x: nat :| x < |PTN_SWAP_LIST| && PTN_SWAP_LIST[x] == name;
      ListNameCarriedTwice(rule, ufs, es, x);
    }
  }

  lemma SwappableIff(ufs: bool, x: nat)
    requires x < |PTN_SWAP_LIST|
    ensures Swappable(ufs, PTN_SWAP_LIST[x]) <==> !Skipped(ufs, PTN_SWAP_LIST[x])
  {
    if Swappable(ufs, PTN_SWAP_LIST[x]) {
      Processed(ufs, x);
    }
    assert "xbl" <= "xbl" && "xbl" <= "xbl_config";
  }

  lemma Processed(ufs: bool, x: nat)
    requires x < |PTN_SWAP_LIST| && PTN_SWAP_LIST[x] != "multiimgoem" && PTN_SWAP_LIST[x] != "multiimgqti"
    requires ufs ==> PTN_SWAP_LIST[x] != "xbl" && PTN_SWAP_LIST[x] != "xbl_config"
    ensures !Skipped(ufs, PTN_SWAP_LIST[x])
  {
    assert PTN_SWAP_LIST[0] == "xbl" && PTN_SWAP_LIST[1] == "xbl_config";
    assert PTN_SWAP_LIST[2] == "multiimgoem" && PTN_SWAP_LIST[3] == "multiimgqti" && PTN_SWAP_LIST[15] == "multiimgoem";
    SwapListTags(x);
  }

  lemma FirstTwo(rule: Rule<Entry, string>, ufs: bool, es: seq<Entry>, name: string, i: nat, j: nat)
    requires Follows(rule, ufs) && i < j < |es| && Answers(es[i], name) && Answers(es[j], name)
    requires forall k :: 0 <= k < j && k != i ==> !Answers(es[k], name)
    ensures TwinOf(rule, es, name) == Twin(i, j)
  {
    forall k | 0 <= k <= j
      ensures rule.hit(es[k], name) == Answers(es[k], name)
    {
      assert rule.hit(es[k], name) == Matches(es[k], name);
    }
  }
}
