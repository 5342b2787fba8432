/** The entry array as the code holds it: one byte buffer with a stride, searched and swapped in place. */
module GptEntryArray {
  import opened Bytes
  import opened CStrings
  import opened GptEntries
  import opened Twins

  /** The offset of entry k. */
  function Base(k: nat, size: nat): nat {
    if k == 0 then 0 else Base(k - 1, size) + size
  }

  /** n entries of size bytes; only the first 128 bytes of each are ever looked at or moved. */
  predicate Strided(length: nat, size: nat, n: nat) {
    PTN_ENTRY_SIZE <= size && length == Base(n, size)
  }

  lemma {:induction false} BaseIsProduct(k: nat, size: nat)
    ensures Base(k, size) == k * size
  {
    if k > 0 {
      BaseIsProduct(k - 1, size);
      assert k * size == (k - 1) * size + size;
    }
  }

  lemma {:induction false} Separate(i: nat, k: nat, size: nat)
    requires i < k
    ensures Base(i, size) + size <= Base(k, size)
  {
    if i + 1 < k {
      Separate(i, k - 1, size);
    }
  }

  function EntryAt(a: seq<byte>, size: nat, n: nat, k: nat): Entry
    requires Strided(|a|, size, n) && k < n
  {
    Separate(k, n, size);
    a[Base(k, size)..Base(k, size) + PTN_ENTRY_SIZE]
  }

  function FirstEntries(a: seq<byte>, size: nat, n: nat, m: nat): (es: seq<Entry>)
    requires Strided(|a|, size, n) && m <= n
    ensures |es| == m && forall k :: 0 <= k < m ==> es[k] == EntryAt(a, size, n, k)
  {
    if m == 0 then [] else FirstEntries(a, size, n, m - 1) + [EntryAt(a, size, n, m - 1)]
  }

  function EntriesOf(a: seq<byte>, size: nat, n: nat): (es: seq<Entry>)
    requires Strided(|a|, size, n)
    ensures |es| == n
  {
    FirstEntries(a, size, n, n)
  }

  /** The bytes of entry k past its first 128. */
  function SlackAt(a: seq<byte>, size: nat, n: nat, k: nat): seq<byte>
    requires Strided(|a|, size, n) && k < n
  {
    Separate(k, n, size);
    a[Base(k, size) + PTN_ENTRY_SIZE..Base(k, size) + size]
  }

  /** Replaces the first 128 bytes of entry k. */
  function PutEntry(a: seq<byte>, size: nat, n: nat, k: nat, e: Entry): (r: seq<byte>)
    requires Strided(|a|, size, n) && k < n
    ensures |r| == |a|
  {
    Separate(k, n, size);
    Splice(a, Base(k, size), e)
  }

  function ExchangeEntries(a: seq<byte>, size: nat, n: nat, i: nat, j: nat): (r: seq<byte>)
    requires Strided(|a|, size, n) && i < n && j < n
    ensures |r| == |a|
  {
    PutEntry(PutEntry(a, size, n, i, EntryAt(a, size, n, j)), size, n, j, EntryAt(a, size, n, i))
  }

  function SwapTwinBytes(rule: Rule<Entry, string>, a: seq<byte>, size: nat, n: nat, name: string): (r: seq<byte>)
    requires Strided(|a|, size, n)
    ensures |r| == |a|
  {
    var es := EntriesOf(a, size, n);
    if !HasTwin(rule, es, name) then a
    else ExchangeEntries(a, size, n, TwinOf(rule, es, name).main, TwinOf(rule, es, name).backup)
  }

  /** The byte array gpt_boot_chain_swap leaves behind. */
  function SwapChainBytes(rule: Rule<Entry, string>, a: seq<byte>, size: nat, n: nat,
                          names: seq<string>): (r: seq<byte>)
    requires Strided(|a|, size, n)
    ensures |r| == |a|
  {
    if names == [] then a
    else SwapTwinBytes(rule, SwapChainBytes(rule, a, size, n, names[..|names| - 1]), size, n, names[|names| - 1])
  }

  // ------------------------------------------------------------------------
  // The byte array and the list of entries
  // ------------------------------------------------------------------------

  lemma PutEntryAt(a: seq<byte>, size: nat, n: nat, i: nat, e: Entry, k: nat)
    requires Strided(|a|, size, n) && i < n && k < n
    ensures EntryAt(PutEntry(a, size, n, i, e), size, n, k) == if k == i then e else EntryAt(a, size, n, k)
    ensures SlackAt(PutEntry(a, size, n, i, e), size, n, k) == SlackAt(a, size, n, k)
  {
    Separate(i, n, size);
    Separate(k, n, size);
    if k < i {
      Separate(k, i, size);
    } else if i < k {
      Separate(i, k, size);
    }
  }

  lemma PutEntryUpdates(a: seq<byte>, size: nat, n: nat, i: nat, e: Entry)
    requires Strided(|a|, size, n) && i < n
    ensures EntriesOf(PutEntry(a, size, n, i, e), size, n) == EntriesOf(a, size, n)[i := e]
    ensures SameSlack(PutEntry(a, size, n, i, e), a, size, n)
  {
    forall k | 0 <= k < n
      ensures EntriesOf(PutEntry(a, size, n, i, e), size, n)[k] == EntriesOf(a, size, n)[i := e][k]
      ensures SlackAt(PutEntry(a, size, n, i, e), size, n, k) == SlackAt(a, size, n, k)
    {
      PutEntryAt(a, size, n, i, e, k);
    }
  }

  predicate SameSlack(a: seq<byte>, b: seq<byte>, size: nat, n: nat)
    requires Strided(|a|, size, n) && |b| == |a|
  {
    forall k :: 0 <= k < n ==> SlackAt(a, size, n, k) == SlackAt(b, size, n, k)
  }

  lemma ExchangeUpdates(a: seq<byte>, size: nat, n: nat, i: nat, j: nat)
    requires Strided(|a|, size, n) && i < n && j < n
    ensures EntriesOf(ExchangeEntries(a, size, n, i, j), size, n)
         == EntriesOf(a, size, n)[i := EntryAt(a, size, n, j)][j := EntryAt(a, size, n, i)]
    ensures SameSlack(ExchangeEntries(a, size, n, i, j), a, size, n)
  {
    PutEntryUpdates(a, size, n, i, EntryAt(a, size, n, j));
    PutEntryUpdates(PutEntry(a, size, n, i, EntryAt(a, size, n, j)), size, n, j, EntryAt(a, size, n, i));
  }

  /** The byte-level swap is the list-level swap, and leaves the rest of every entry alone. */
  lemma {:induction false} BytesFollowList(rule: Rule<Entry, string>, a: seq<byte>, size: nat, n: nat,
                                           names: seq<string>)
    requires Strided(|a|, size, n)
    ensures EntriesOf(SwapChainBytes(rule, a, size, n, names), size, n) == SwapChain(rule, EntriesOf(a, size, n), names)
    ensures SameSlack(SwapChainBytes(rule, a, size, n, names), a, size, n)
  {
    if names != [] {
      BytesFollowList(rule, a, size, n, names[..|names| - 1]);
      var mid := SwapChainBytes(rule, a, size, n, names[..|names| - 1]);
      var t := TwinOf(rule, EntriesOf(mid, size, n), names[|names| - 1]);
      if t.Twin? {
        ExchangeUpdates(mid, size, n, t.main, t.backup);
      }
    }
  }

  /** Entries and slack are all there is. */
  lemma {:induction false} EntriesAndSlackDetermine(a: seq<byte>, b: seq<byte>, size: nat, n: nat, m: nat)
    requires Strided(|a|, size, n) && |b| == |a| && m <= n
    requires EntriesOf(a, size, n) == EntriesOf(b, size, n) && SameSlack(a, b, size, n)
    ensures Base(m, size) <= |a| && a[..Base(m, size)] == b[..Base(m, size)]
  {
    if m > 0 {
      EntriesAndSlackDetermine(a, b, size, n, m - 1);
      Separate(m - 1, n, size);
      var o := Base(m - 1, size);
      forall x {:trigger a[x]} | o <= x < o + size
        ensures a[x] == b[x]
      {
        if x < o + PTN_ENTRY_SIZE {
          assert EntryAt(a, size, n, m - 1)[x - o] == a[x] && EntryAt(b, size, n, m - 1)[x - o] == b[x];
        } else {
          assert SlackAt(a, size, n, m - 1)[x - o - PTN_ENTRY_SIZE] == a[x]
               && SlackAt(b, size, n, m - 1)[x - o - PTN_ENTRY_SIZE] == b[x];
        }
      }
      assert forall x :: 0 <= x < o ==> a[x] == a[..o][x] == b[..o][x] == b[x];
    }
  }

  lemma EntriesRestored(rule: Rule<Entry, string>, a: seq<byte>, size: nat, n: nat, names: seq<string>)
    requires Strided(|a|, size, n) && Independent(rule, names)
    ensures EntriesOf(SwapChainBytes(rule, SwapChainBytes(rule, a, size, n, names), size, n, names), size, n)
         == EntriesOf(a, size, n)
  {
    BytesFollowList(rule, a, size, n, names);
    BytesFollowList(rule, SwapChainBytes(rule, a, size, n, names), size, n, names);
    SwapChainInvolution(rule, EntriesOf(a, size, n), names);
  }

  lemma SlackRestored(rule: Rule<Entry, string>, a: seq<byte>, size: nat, n: nat, names: seq<string>)
    requires Strided(|a|, size, n)
    ensures SameSlack(SwapChainBytes(rule, SwapChainBytes(rule, a, size, n, names), size, n, names), a, size, n)
  {
    var once := SwapChainBytes(rule, a, size, n, names);
    var twice := SwapChainBytes(rule, once, size, n, names);
    BytesFollowList(rule, a, size, n, names);
    BytesFollowList(rule, once, size, n, names);
    forall k | 0 <= k < n
      ensures SlackAt(twice, size, n, k) == SlackAt(a, size, n, k)
    {
      assert SlackAt(twice, size, n, k) == SlackAt(once, size, n, k);
    }
  }

  lemma SameArray(a: seq<byte>, b: seq<byte>, size: nat, n: nat)
    requires Strided(|a|, size, n) && |b| == |a|
    requires EntriesOf(a, size, n) == EntriesOf(b, size, n) && SameSlack(a, b, size, n)
    ensures a == b
  {
    EntriesAndSlackDetermine(a, b, size, n, n);
    assert a[..Base(n, size)] == a && b[..Base(n, size)] == b;
  }

  /** gpt_boot_chain_swap undoes itself, byte for byte, on every array and both kinds of device. */
  lemma BootChainSwapInvolution(ufs: bool, a: seq<byte>, size: nat, n: nat)
    requires Strided(|a|, size, n)
    ensures SwapChainBytes(BootRule(ufs), SwapChainBytes(BootRule(ufs), a, size, n, PTN_SWAP_LIST),
                           size, n, PTN_SWAP_LIST) == a
  {
    SwapListIndependent(ufs);
    var rule, names := BootRule(ufs), PTN_SWAP_LIST;
    EntriesRestored(rule, a, size, n, names);
    SlackRestored(rule, a, size, n, names);
    SameArray(SwapChainBytes(rule, SwapChainBytes(rule, a, size, n, names), size, n, names), a, size, n);
  }

  /** The swapped array holds the same entries, and every processed name that has a backup now
      finds the former backup first. */
  lemma BootChainSwapEffect(ufs: bool, a: seq<byte>, size: nat, n: nat, x: nat)
    requires Strided(|a|, size, n) && x < |PTN_SWAP_LIST|
    ensures var es, name := EntriesOf(a, size, n), PTN_SWAP_LIST[x];
      var r := EntriesOf(SwapChainBytes(BootRule(ufs), a, size, n, PTN_SWAP_LIST), size, n);
      && multiset(r) == multiset(es)
      && (!Skipped(ufs, name) && TwinOf(BootRule(ufs), es, name).Twin? ==>
            var t := TwinOf(BootRule(ufs), es, name);
            FirstMatch(BootRule(ufs), r, name, 0) == t.main && r[t.main] == es[t.backup] && r[t.backup] == es[t.main])
  {
    SwapListIndependent(ufs);
    BytesFollowList(BootRule(ufs), a, size, n, PTN_SWAP_LIST);
    SwapChainPermutes(BootRule(ufs), EntriesOf(a, size, n), PTN_SWAP_LIST);
    if HasTwin(BootRule(ufs), EntriesOf(a, size, n), PTN_SWAP_LIST[x]) {
      BackupBecomesMain(BootRule(ufs), EntriesOf(a, size, n), PTN_SWAP_LIST, x);
    }
  }

  // ------------------------------------------------------------------------
  // The code
  // ------------------------------------------------------------------------

  /** The test in the middle of gpt_pentry_seek: strncmp against the name, then either the
      end of the copied name or strcmp of the rest against "bak". */
  predicate NameTest(name: string, name8: seq<char>)
    requires Terminated(name8)
  {
    && StrnEqual(name + ['\0'], name8, |name|)
    && |name| < |name8|
    && (name8[|name|] == '\0' || (Terminated(name8[|name|..]) && StrEqual(name8[|name|..], BAK_PTN_NAME_EXT + ['\0'])))
  }

  /** That test decides exactly whether the entry carries the name or its backup's name. */
  lemma NameTestDecides(name: string, name8: seq<char>)
    requires '\0' !in name && Terminated(name8)
    ensures NameTest(name, name8) <==> CStr(name8) == name || CStr(name8) == name + BAK_PTN_NAME_EXT
  {
    StrnEqualMeansPrefix(name, name8);
    if name <= CStr(name8) {
      CStrDrop(name8, |name|);
      var rest := name8[|name|..];
      StrEqualMeansSame(rest, BAK_PTN_NAME_EXT + ['\0']);
      CStrUnique(BAK_PTN_NAME_EXT + ['\0'], BAK_PTN_NAME_EXT);
      assert CStr(name8) == name + CStr(rest);
      assert rest[0] == name8[|name|];
    }
  }

  /** Copies the low bytes of a UTF-16 name, 36 characters and a terminator. */
  method CopyName8(name8: array<char>, pentries: array<byte>, pos: nat, ghost e: Entry)
    requires name8.Length == MAX_GPT_NAME_SIZE
    requires PARTITION_NAME_OFFSET <= pos && pos + MAX_GPT_NAME_SIZE <= pentries.Length
    requires e == pentries[..][pos - PARTITION_NAME_OFFSET..pos + MAX_GPT_NAME_SIZE]
    modifies name8
    ensures Terminated(name8[..]) && CStr(name8[..]) == PartitionName(e)
  {
    for i := 0 to MAX_GPT_NAME_SIZE / 2
      invariant forall x :: 0 <= x < i ==> name8[x] == Name8(e)[x]
    {
      assert e[PARTITION_NAME_OFFSET + 2 * i] == pentries[pos + i * 2];
      name8[i] := pentries[pos + i * 2] as char;
    }
    name8[36] := '\0';
    assert name8[..37] == Name8(e);
    assert name8[..][|PartitionName(e)|] == Name8(e)[|PartitionName(e)|];
    CStrUnique(name8[..], PartitionName(e));
  }

  /** Copies and tests the name of one entry. */
  method AnswersTo(name: string, name8: array<char>, pentries: array<byte>, pos: nat, ghost e: Entry,
      ghost rule: Rule<Entry, string>, ghost ufs: bool)
    returns (hit: bool)
    requires Follows(rule, ufs)
    requires '\0' !in name && name8.Length == MAX_GPT_NAME_SIZE
    requires PARTITION_NAME_OFFSET <= pos && pos + MAX_GPT_NAME_SIZE <= pentries.Length
    requires e == pentries[..][pos - PARTITION_NAME_OFFSET..pos + MAX_GPT_NAME_SIZE]
    modifies name8
    ensures hit == rule.hit(e, name)
  {
    CopyName8(name8, pentries, pos, e);
    NameTestDecides(name, name8[..]);
    hit := NameTest(name, name8[..]);
    assert hit == Matches(e, name);
  }

  lemma EntryBytes(a: seq<byte>, size: nat, n: nat, k: nat)
    requires Strided(|a|, size, n) && k < n
    ensures Base(k, size) + PTN_ENTRY_SIZE <= |a| && Base(k + 1, size) == Base(k, size) + size
    ensures EntriesOf(a, size, n)[k] == a[Base(k, size)..Base(k, size) + PTN_ENTRY_SIZE]
  {
    Separate(k, n, size);
  }

  /** Finds the first entry at or after start that answers to the name; -1 stands for NULL. */
  method GptPentrySeek(name: string, pentries: array<byte>, start: nat, size: nat, ghost n: nat, ghost from: nat,
      ghost rule: Rule<Entry, string>, ghost ufs: bool)
    returns (r: int)
    requires Follows(rule, ufs)
    requires '\0' !in name
    requires Strided(pentries.Length, size, n) && from <= n && start == Base(from, size)
    ensures var k := FirstMatch(rule, EntriesOf(pentries[..], size, n), name, from);
      r == if k == n then -1 else Base(k, size)
  {
    ghost var was := pentries[..];
    ghost var es := EntriesOf(was, size, n);
    var name8 := new char[MAX_GPT_NAME_SIZE];
    var pos := start + PARTITION_NAME_OFFSET;
    ghost var k := from;
    while pos < pentries.Length
      invariant pentries[..] == was
      invariant from <= k <= n && pos == Base(k, size) + PARTITION_NAME_OFFSET
      invariant FirstMatch(rule, es, name, from) == FirstMatch(rule, es, name, k)
      decreases n - k
    {
      EntryBytes(was, size, n, k);
      var hit := AnswersTo(name, name8, pentries, pos, es[k], rule, ufs);
      if hit {
        return pos - PARTITION_NAME_OFFSET;
      }
      pos := pos + size;
      k := k + 1;
    }
    if k < n {
      Separate(k, n, size);
    }
    return -1;
  }

  function Exchanged(a: seq<byte>, main: nat, backup: nat): seq<byte>
    requires main + PTN_ENTRY_SIZE <= backup && backup + PTN_ENTRY_SIZE <= |a|
  {
    Splice(Splice(a, main, a[backup..backup + PTN_ENTRY_SIZE]), backup, a[main..main + PTN_ENTRY_SIZE])
  }

  /** The exchange of a name's twins, by their places in the bytes. */
  lemma TwinBytes(rule: Rule<Entry, string>, a: seq<byte>, size: nat, n: nat, name: string)
    requires Strided(|a|, size, n) && HasTwin(rule, EntriesOf(a, size, n), name)
    ensures var t := TwinOf(rule, EntriesOf(a, size, n), name);
      && Base(t.main, size) + size <= Base(t.backup, size) && Base(t.backup, size) + size <= |a|
      && SwapTwinBytes(rule, a, size, n, name) == Exchanged(a, Base(t.main, size), Base(t.backup, size))
  {
    var t := TwinOf(rule, EntriesOf(a, size, n), name);
    Separate(t.main, t.backup, size);
    Separate(t.backup, n, size);
  }

  /** The three memcpy calls that exchange two entries through a local buffer. */
  method ExchangeByBuffer(pentries: array<byte>, main: nat, backup: nat)
    requires main + PTN_ENTRY_SIZE <= backup && backup + PTN_ENTRY_SIZE <= pentries.Length
    modifies pentries
    ensures pentries[..] == Exchanged(old(pentries[..]), main, backup)
  {
    ghost var was := pentries[..];
    ghost var first, second := was[main..main + PTN_ENTRY_SIZE], was[backup..backup + PTN_ENTRY_SIZE];
    var swap := new byte[PTN_ENTRY_SIZE];
    Memcpy(swap, 0, pentries, main, PTN_ENTRY_SIZE);
    assert swap[0..PTN_ENTRY_SIZE] == first;
    Memcpy(pentries, main, pentries, backup, PTN_ENTRY_SIZE);
    assert pentries[..] == Splice(was, main, second);
    Memcpy(pentries, backup, swap, 0, PTN_ENTRY_SIZE);
  }

  /** Seeks the first entry of a name and then the next one behind it. */
  method SeekTwin(pentries: array<byte>, size: nat, ghost n: nat, ufs: bool, name: string,
      ghost rule: Rule<Entry, string>)
    returns (found: bool, main: int, backup: int)
    requires Follows(rule, ufs) && '\0' !in name && Strided(pentries.Length, size, n)
    ensures var t := TwinOf(rule, EntriesOf(pentries[..], size, n), name);
      found == t.Twin? && (found ==> main == Base(t.main, size) && backup == Base(t.backup, size))
  {
    ghost var i := FirstMatch(rule, EntriesOf(pentries[..], size, n), name, 0);
    backup := -1;
    main := GptPentrySeek(name, pentries, 0, size, n, 0, rule, ufs);
    if main != -1 {
      assert i < n && main + size == Base(i + 1, size);
      backup := GptPentrySeek(name, pentries, main + size, size, n, i + 1, rule, ufs);
    }
    found := backup != -1;
  }

  /** One turn of the swap loop: both entries are sought, and exchanged when both are found. */
  method SwapTwinInPlace(pentries: array<byte>, size: nat, ghost n: nat, ufs: bool, name: string,
      ghost rule: Rule<Entry, string>)
    returns (swapped: bool)
    requires Follows(rule, ufs)
    requires '\0' !in name && Strided(pentries.Length, size, n)
    modifies pentries
    ensures pentries[..] == SwapTwinBytes(rule, old(pentries[..]), size, n, name)
    ensures swapped == HasTwin(rule, EntriesOf(old(pentries[..]), size, n), name)
  {
    if Skipped(ufs, name) {
      return false;
    }
    var main, backup;
    swapped, main, backup := SeekTwin(pentries, size, n, ufs, name, rule);
    if swapped {
      TwinBytes(rule, pentries[..], size, n, name);
      ExchangeByBuffer(pentries, main, backup);
    }
  }

  /** One more name: its exchange comes on top, and its twins are where they were at the start. */
  lemma ChainTurn(rule: Rule<Entry, string>, a: seq<byte>, size: nat, n: nat, names: seq<string>, i: nat)
    requires Strided(|a|, size, n) && Independent(rule, names) && i < |names|
    ensures var mid := SwapChainBytes(rule, a, size, n, names[..i]);
      && SwapChainBytes(rule, a, size, n, names[..i + 1]) == SwapTwinBytes(rule, mid, size, n, names[i])
      && (HasBackup(rule, EntriesOf(a, size, n), names[..i + 1]) <==>
            HasBackup(rule, EntriesOf(a, size, n), names[..i]) || HasTwin(rule, EntriesOf(mid, size, n), names[i]))
  {
    assert names[..i + 1][..i] == names[..i];
    BytesFollowList(rule, a, size, n, names[..i]);
    TwinSurvives(rule, EntriesOf(a, size, n), names, i);
  }

  /** Swaps every processed pair in place; 0 when at least one pair was swapped, 1 when there is none. */
  method GptBootChainSwap(pentries: array<byte>, size: nat, ghost n: nat, ufs: bool, ghost rule: Rule<Entry, string>)
    returns (backupNotFound: int)
    requires Follows(rule, ufs) && Independent(rule, PTN_SWAP_LIST)
    requires Strided(pentries.Length, size, n)
    modifies pentries
    ensures pentries[..] == SwapChainBytes(rule, old(pentries[..]), size, n, PTN_SWAP_LIST)
    ensures backupNotFound == if HasBackup(rule, EntriesOf(old(pentries[..]), size, n), PTN_SWAP_LIST) then 0 else 1
  {
    SwapListIndependent(ufs);
    ghost var was := pentries[..];
    ghost var es := EntriesOf(was, size, n);
    var names := PTN_SWAP_LIST;
    backupNotFound := 1;
    for i := 0 to |names|
      invariant pentries[..] == SwapChainBytes(rule, was, size, n, names[..i])
      invariant backupNotFound == if HasBackup(rule, es, names[..i]) then 0 else 1
    {
      ChainTurn(rule, was, size, n, names, i);
      var swapped := SwapTwinInPlace(pentries, size, n, ufs, names[i], rule);
      if swapped {
        backupNotFound := 0;
      }
    }
    assert names[..|names|] == names;
  }
}
