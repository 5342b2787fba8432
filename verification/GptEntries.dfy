/** Partition entries and the names they answer to. */
module GptEntries {
  import opened Bytes
  import opened CStrings
  import opened Twins

  const PTN_ENTRY_SIZE: nat := 128
  const PARTITION_NAME_OFFSET: nat := 56
  const MAX_GPT_NAME_SIZE: nat := 72
  const BAK_PTN_NAME_EXT: string := "bak"

  const PTN_SWAP_LIST: seq<string> := [
    "xbl", "xbl_config", "multiimgoem", "multiimgqti", "abl", "aop", "cmnlib", "cmnlib64", "devcfg", "dsp", "dtbo",
    "featenabler", "hyp", "imagefv", "keymaster", "multiimgoem", "qupfw", "tz", "uefisecapp", "vbmeta", "vbmeta_system"]

  // ------------------------------------------------------------------------
  // Entries as a list
  // ------------------------------------------------------------------------

  /** The 128 bytes of an entry that carry GUIDs, LBAs, attributes and name
      (section 5.3.3 of the UEFI Specification); these are what the swap moves. */
  type Entry = e: seq<byte> | |e| == 128 witness seq(128, i => 0)

  /** The first m characters of the UTF-16 name, high bytes dropped. */
  function LowBytes(e: Entry, m: nat): (r: seq<char>)
    requires m <= MAX_GPT_NAME_SIZE / 2
    ensures |r| == m && forall i :: 0 <= i < m ==> r[i] == e[PARTITION_NAME_OFFSET + 2 * i] as char
  {
    if m == 0 then [] else LowBytes(e, m - 1) + [e[PARTITION_NAME_OFFSET + 2 * (m - 1)] as char]
  }

  /** The name as gpt_pentry_seek copies it: 36 characters and a terminator. */
  function Name8(e: Entry): (r: seq<char>)
    ensures Terminated(r)
  {
    var r := LowBytes(e, MAX_GPT_NAME_SIZE / 2) + ['\0'];
    assert r[MAX_GPT_NAME_SIZE / 2] == '\0';
    r
  }

  function PartitionName(e: Entry): string {
    CStr(Name8(e))
  }

  /** The bytes of an entry spell a name: its characters in UTF-16, and a zero behind them if there is room. */
  predicate Spells(e: Entry, name: string) {
    && |name| <= MAX_GPT_NAME_SIZE / 2
    && (forall i :: 0 <= i < |name| ==> e[PARTITION_NAME_OFFSET + 2 * i] as char == name[i] != '\0')
    && (|name| < MAX_GPT_NAME_SIZE / 2 ==> e[PARTITION_NAME_OFFSET + 2 * |name|] == 0)
  }

  /** The copied name is what the bytes spell, high bytes aside. */
  lemma NameIsSpelled(e: Entry, name: string)
    ensures PartitionName(e) == name <==> Spells(e, name)
  {
    var low := LowBytes(e, MAX_GPT_NAME_SIZE / 2);
    if Spells(e, name) {
      assert name == Name8(e)[..|name|];
      CStrUnique(Name8(e), name);
    }
    if PartitionName(e) == name {
      forall i | 0 <= i < |name|
        ensures e[PARTITION_NAME_OFFSET + 2 * i] as char == name[i] != '\0'
      {
        assert name[i] == Name8(e)[i] && name[i] in name;
      }
    }
  }

  /** An entry answers to a name when it carries that name or the name of its backup. */
  predicate Matches(e: Entry, name: string) {
    PartitionName(e) == name || PartitionName(e) == name + BAK_PTN_NAME_EXT
  }

  /** Names the swap leaves to others: xbl* on UFS, and the multi-image partitions. */
  predicate Skipped(ufs: bool, name: string) {
    (ufs && "xbl" <= name) || "multiimgoem" <= name || "multiimgqti" <= name
  }

  /** What gpt_boot_chain_swap exchanges: entries by name, skipped names left out. */
  function BootRule(ufs: bool): (r: Rule<Entry, string>) {
    Rule((e, name) => Matches(e, name), name => Skipped(ufs, name))
  }

  /** A rule that tests and skips names as the code does. */
  ghost predicate Follows(rule: Rule<Entry, string>, ufs: bool) {
    && (forall e: Entry, name: string {:trigger Matches(e, name)} :: rule.hit(e, name) == Matches(e, name))
    && (forall name: string {:trigger Skipped(ufs, name)} :: rule.skip(name) == Skipped(ufs, name))
  }

  // ------------------------------------------------------------------------
  // Names never compete for an entry
  // ------------------------------------------------------------------------

  /** Names that differ, also after "bak" is appended to either, share no entry. */
  lemma DistinctNamesUnrelated(ufs: bool, n: string, m: string)
    requires n != m && n != m + BAK_PTN_NAME_EXT && m != n + BAK_PTN_NAME_EXT
    ensures Unrelated(BootRule(ufs), n, m)
  {
    SuffixCancels(n, m, BAK_PTN_NAME_EXT);
    forall e: Entry
      ensures !(Matches(e, n) && Matches(e, m))
    {
    }
  }

  lemma SuffixCancels(n: string, m: string, ext: string)
    ensures n + ext == m + ext ==> n == m
  {
    if n + ext == m + ext {
      assert n == (n + ext)[..|n|] == (m + ext)[..|m|] == m;
    }
  }

  /** A number that tells the processed names apart: first letters and length. */
  function NameTag(n: string): nat {
    if |n| < 2 || n[0] == 'x' then |n| else 100_000 * n[0] as nat + 100 * n[1] as nat + |n|
  }

  const NAME_TAGS: seq<nat> := [
    3, 10, 10_911_711, 10_911_711, 9_709_803, 9_711_103, 9_910_906, 9_910_908, 10_010_106, 10_011_503, 10_011_604,
    10_210_111, 10_412_103, 10_510_907, 10_710_109, 10_911_711, 11_311_705, 11_612_202,
    11_710_110, 11_809_806, 11_809_813]

  lemma SwapListTags0(x: nat)
    requires x < 7
    ensures NameTag(PTN_SWAP_LIST[x]) == NAME_TAGS[x]
    ensures '\0' !in PTN_SWAP_LIST[x] && PTN_SWAP_LIST[x] != [] && PTN_SWAP_LIST[x][|PTN_SWAP_LIST[x]| - 1] != 'k'
    ensures PTN_SWAP_LIST[x][0] == 'x' <==> x < 2
    ensures PTN_SWAP_LIST[x][0] == 'm' <==> x in {2, 3, 15}
  {
    match x
    case 0 => assert PTN_SWAP_LIST[0] == "xbl";
    case 1 => assert PTN_SWAP_LIST[1] == "xbl_config";
    case 2 => assert PTN_SWAP_LIST[2] == "multiimgoem";
    case 3 => assert PTN_SWAP_LIST[3] == "multiimgqti";
    case 4 => assert PTN_SWAP_LIST[4] == "abl";
    case 5 => assert PTN_SWAP_LIST[5] == "aop";
    case 6 => assert PTN_SWAP_LIST[6] == "cmnlib";
  }

  lemma SwapListTags1(x: nat)
    requires 7 <= x < 14
    ensures NameTag(PTN_SWAP_LIST[x]) == NAME_TAGS[x]
    ensures '\0' !in PTN_SWAP_LIST[x] && PTN_SWAP_LIST[x] != [] && PTN_SWAP_LIST[x][|PTN_SWAP_LIST[x]| - 1] != 'k'
    ensures PTN_SWAP_LIST[x][0] == 'x' <==> x < 2
    ensures PTN_SWAP_LIST[x][0] == 'm' <==> x in {2, 3, 15}
  {
    match x
    case 7 => assert PTN_SWAP_LIST[7] == "cmnlib64";
    case 8 => assert PTN_SWAP_LIST[8] == "devcfg";
    case 9 => assert PTN_SWAP_LIST[9] == "dsp";
    case 10 => assert PTN_SWAP_LIST[10] == "dtbo";
    case 11 => assert PTN_SWAP_LIST[11] == "featenabler";
    case 12 => assert PTN_SWAP_LIST[12] == "hyp";
    case 13 => assert PTN_SWAP_LIST[13] == "imagefv";
  }

  lemma SwapListTags2(x: nat)
    requires 14 <= x < 21
    ensures NameTag(PTN_SWAP_LIST[x]) == NAME_TAGS[x]
    ensures '\0' !in PTN_SWAP_LIST[x] && PTN_SWAP_LIST[x] != [] && PTN_SWAP_LIST[x][|PTN_SWAP_LIST[x]| - 1] != 'k'
    ensures PTN_SWAP_LIST[x][0] == 'x' <==> x < 2
    ensures PTN_SWAP_LIST[x][0] == 'm' <==> x in {2, 3, 15}
  {
    match x
    case 14 => assert PTN_SWAP_LIST[14] == "keymaster";
    case 15 => assert PTN_SWAP_LIST[15] == "multiimgoem";
    case 16 => assert PTN_SWAP_LIST[16] == "qupfw";
    case 17 => assert PTN_SWAP_LIST[17] == "tz";
    case 18 => assert PTN_SWAP_LIST[18] == "uefisecapp";
    case 19 => assert PTN_SWAP_LIST[19] == "vbmeta";
    case 20 => assert PTN_SWAP_LIST[20] == "vbmeta_system";
  }

  lemma SwapListTags(x: nat)
    requires x < |PTN_SWAP_LIST|
    ensures NameTag(PTN_SWAP_LIST[x]) == NAME_TAGS[x]
    ensures '\0' !in PTN_SWAP_LIST[x] && PTN_SWAP_LIST[x] != [] && PTN_SWAP_LIST[x][|PTN_SWAP_LIST[x]| - 1] != 'k'
    ensures x in {2, 3, 15} ==> forall ufs :: Skipped(ufs, PTN_SWAP_LIST[x])
    ensures PTN_SWAP_LIST[x][0] == 'x' <==> x < 2
    ensures PTN_SWAP_LIST[x][0] == 'm' <==> x in {2, 3, 15}
  {
    if x < 7 {
      SwapListTags0(x);
    } else if x < 14 {
      SwapListTags1(x);
    } else {
      SwapListTags2(x);
    }
  }

  /** Outside the multi-image partitions, which are skipped, the tags increase. */
  lemma TagsDiffer(x: nat, y: nat)
    requires x < y < |NAME_TAGS| && x !in {2, 3, 15} && y !in {2, 3, 15}
    ensures NAME_TAGS[x] != NAME_TAGS[y]
  {
  }

  /** The shipped swap list is independent, whether or not the device is UFS. */
  lemma SwapListIndependent(ufs: bool)
    ensures Independent(BootRule(ufs), PTN_SWAP_LIST)
    ensures forall x :: 0 <= x < |PTN_SWAP_LIST| ==> '\0' !in PTN_SWAP_LIST[x]
  {
    forall x | 0 <= x < |PTN_SWAP_LIST|
      ensures '\0' !in PTN_SWAP_LIST[x]
    {
      SwapListTags(x);
    }
    var rule := BootRule(ufs);
    forall x, y | 0 <= x < y < |PTN_SWAP_LIST| && !rule.skip(PTN_SWAP_LIST[x]) && !rule.skip(PTN_SWAP_LIST[y])
      ensures Unrelated(rule, PTN_SWAP_LIST[x], PTN_SWAP_LIST[y])
    {
      TwoListNames(ufs, x, y);
    }
  }

  lemma TwoListNames(ufs: bool, x: nat, y: nat)
    requires x < y < |PTN_SWAP_LIST| && !Skipped(ufs, PTN_SWAP_LIST[x]) && !Skipped(ufs, PTN_SWAP_LIST[y])
    ensures Unrelated(BootRule(ufs), PTN_SWAP_LIST[x], PTN_SWAP_LIST[y])
  {
    SwapListTags(x);
    SwapListTags(y);
    TagsDiffer(x, y);
    NotABackup(PTN_SWAP_LIST[x], PTN_SWAP_LIST[y]);
    NotABackup(PTN_SWAP_LIST[y], PTN_SWAP_LIST[x]);
    DistinctNamesUnrelated(ufs, PTN_SWAP_LIST[x], PTN_SWAP_LIST[y]);
  }

  lemma NotABackup(n: string, m: string)
    requires n != [] && n[|n| - 1] != 'k'
    ensures n != m + BAK_PTN_NAME_EXT
  {
    var b := m + BAK_PTN_NAME_EXT;
    assert b[|b| - 1] == 'k';
  }
}
