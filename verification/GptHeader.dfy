/** A GPT header block: its signature, its own CRC, and the three edits gpt-utils makes to it. */
module GptHeader {
  import opened Bytes

  // Field offsets (gpt-utils.h); section 5.3.2 of the UEFI Specification.
  const HEADER_SIZE_OFFSET: nat := 12
  const HEADER_CRC_OFFSET: nat := 16
  const PENTRIES_OFFSET: nat := 72
  const PARTITION_COUNT_OFFSET: nat := 80
  const PENTRY_SIZE_OFFSET: nat := 84
  const PARTITION_CRC_OFFSET: nat := 88

  // "EFI PART" and its terminator: sizeof counts nine bytes, so the low byte
  // of the revision field is compared and written as well.
  const SIGNATURE: seq<byte> := [0x45, 0x46, 0x49, 0x20, 0x50, 0x41, 0x52, 0x54, 0x00]

  datatype GptState = GPT_OK | GPT_BAD_SIGNATURE | GPT_BAD_CRC

  /** zlib's crc32 from its initial value: any deterministic function will do. */
  type Crc = seq<byte> -> uint32

  /** A block whose header-size field stays inside the block. */
  predicate IsHeader(h: seq<byte>) {
    |h| >= 92 && Get4(h, HEADER_SIZE_OFFSET) <= |h|
  }

  /** The header CRC is taken over header-size bytes with the CRC field cleared. */
  function HeaderCrc(crc: Crc, h: seq<byte>): uint32
    requires IsHeader(h)
  {
    crc(Put4(h, HEADER_CRC_OFFSET, 0)[..Get4(h, HEADER_SIZE_OFFSET)])
  }

  function StateOf(crc: Crc, h: seq<byte>): GptState
    requires IsHeader(h)
  {
    if HeaderCrc(crc, h) != Get4(h, HEADER_CRC_OFFSET) then GPT_BAD_CRC
    else if h[..|SIGNATURE|] != SIGNATURE then GPT_BAD_SIGNATURE
    else GPT_OK
  }

  /** A copy of the table is complete: good signature, good header CRC, good entry-array CRC. */
  predicate Complete(crc: Crc, h: seq<byte>, entries: seq<byte>) {
    IsHeader(h) && StateOf(crc, h) == GPT_OK && Get4(h, PARTITION_CRC_OFFSET) == crc(entries)
  }

  /** Recomputes the header CRC. */
  function Seal(crc: Crc, h: seq<byte>): (r: seq<byte>)
    requires IsHeader(h)
    ensures |r| == |h| && IsHeader(r)
    ensures forall i :: 0 <= i < |h| && !(HEADER_CRC_OFFSET <= i < HEADER_CRC_OFFSET + 4) ==> r[i] == h[i]
  {
    Put4(h, HEADER_CRC_OFFSET, HeaderCrc(crc, h))
  }

  function SetSignature(h: seq<byte>, good: bool): (r: seq<byte>)
    requires IsHeader(h)
    ensures |r| == |h| && IsHeader(r)
    ensures forall i :: |SIGNATURE| <= i < |h| ==> r[i] == h[i]
  {
    var r := if good then SIGNATURE + h[|SIGNATURE|..] else h[0 := 0];
    Get4Frame(r, h, HEADER_SIZE_OFFSET);
    r
  }

  /** What gpt_set_state writes: the signature fixed or corrupted, the header resealed. */
  function Mark(crc: Crc, h: seq<byte>, good: bool): (r: seq<byte>)
    requires IsHeader(h)
    ensures |r| == |h| && IsHeader(r)
  {
    Seal(crc, SetSignature(h, good))
  }

  /** What gpt2_set_boot_chain writes: the header resealed around a new entry array. */
  function Repoint(crc: Crc, h: seq<byte>, entries: seq<byte>): (r: seq<byte>)
    requires IsHeader(h)
    ensures |r| == |h| && IsHeader(r)
  {
    Seal(crc, Put4(h, PARTITION_CRC_OFFSET, crc(entries)))
  }

  /** Equal everywhere but in the header CRC field. */
  predicate SameButCrc(a: seq<byte>, b: seq<byte>) {
    |a| == |b| && forall i {:trigger a[i]} {:trigger b[i]} :: 0 <= i < |a| && !(16 <= i < 20) ==> a[i] == b[i]
  }

  lemma SameField(a: seq<byte>, b: seq<byte>)
    requires |a| >= 92 && SameButCrc(a, b) && Get4(a, HEADER_CRC_OFFSET) == Get4(b, HEADER_CRC_OFFSET)
    ensures a == b
  {
    Get4Injective(a, b, HEADER_CRC_OFFSET);
  }

  /** The seal depends on nothing in the CRC field it replaces. */
  lemma SealIgnoresCrcField(crc: Crc, a: seq<byte>, b: seq<byte>)
    requires IsHeader(a) && SameButCrc(a, b)
    ensures IsHeader(b) && HeaderCrc(crc, a) == HeaderCrc(crc, b) && Seal(crc, a) == Seal(crc, b)
  {
    Get4Frame(a, b, HEADER_SIZE_OFFSET);
    SameField(Put4(a, HEADER_CRC_OFFSET, 0), Put4(b, HEADER_CRC_OFFSET, 0));
    SameField(Seal(crc, a), Seal(crc, b));
  }

  /** A sealed header never has a bad CRC; its state is its signature's. */
  lemma SealedState(crc: Crc, h: seq<byte>)
    requires IsHeader(h)
    ensures StateOf(crc, Seal(crc, h)) == if h[..|SIGNATURE|] == SIGNATURE then GPT_OK else GPT_BAD_SIGNATURE
  {
    var s := Seal(crc, h);
    SealIgnoresCrcField(crc, s, h);
    assert s[..9] == h[..9];
  }

  /** Sealing changes nothing exactly on the headers whose CRC is good. */
  lemma SealFixpoint(crc: Crc, h: seq<byte>)
    requires IsHeader(h)
    ensures StateOf(crc, h) != GPT_BAD_CRC <==> Seal(crc, h) == h
  {
    if StateOf(crc, h) != GPT_BAD_CRC {
      SameField(Seal(crc, h), h);
    }
  }

  lemma SignatureSet(h: seq<byte>, good: bool)
    requires IsHeader(h)
    ensures (SetSignature(h, good)[..|SIGNATURE|] == SIGNATURE) == good
  {
    if !good {
      assert SetSignature(h, good)[..|SIGNATURE|][0] != SIGNATURE[0];
    }
  }

  /** gpt_set_state leaves the state it was asked for, and every byte past the CRC field alone. */
  lemma MarkedState(crc: Crc, h: seq<byte>, good: bool)
    requires IsHeader(h)
    ensures StateOf(crc, Mark(crc, h, good)) == if good then GPT_OK else GPT_BAD_SIGNATURE
    ensures forall i :: 20 <= i < |h| ==> Mark(crc, h, good)[i] == h[i]
  {
    SealedState(crc, SetSignature(h, good));
    SignatureSet(h, good);
  }

  /** Repointing keeps a header's signature, and binds the header to the array. */
  lemma RepointedState(crc: Crc, h: seq<byte>, entries: seq<byte>)
    requires IsHeader(h)
    ensures StateOf(crc, Repoint(crc, h, entries)) ==
      if h[..|SIGNATURE|] == SIGNATURE then GPT_OK else GPT_BAD_SIGNATURE
    ensures Get4(Repoint(crc, h, entries), PARTITION_CRC_OFFSET) == crc(entries)
  {
    var p := Put4(h, PARTITION_CRC_OFFSET, crc(entries));
    SealedState(crc, p);
    Get4Frame(Seal(crc, p), p, PARTITION_CRC_OFFSET);
    assert p[..9] == h[..9];
  }

  /** Corrupting a good header and fixing it again gives back the same bytes. */
  lemma MarkRoundTrip(crc: Crc, h: seq<byte>)
    requires IsHeader(h) && StateOf(crc, h) == GPT_OK
    ensures Mark(crc, Mark(crc, h, false), true) == h
  {
    var back := SetSignature(Mark(crc, h, false), true);
    assert forall i :: 0 <= i < 9 ==> h[i] == h[..9][i];
    SealIgnoresCrcField(crc, back, h);
    SealFixpoint(crc, h);
  }

  /** The bytes of a header outside its signature, its CRC and its entry-array CRC. */
  predicate SameBody(a: seq<byte>, b: seq<byte>) {
    |a| == |b| && forall i {:trigger a[i]} {:trigger b[i]} ::
      9 <= i < |a| && !(16 <= i < 20) && !(88 <= i < 92) ==> a[i] == b[i]
  }

  /** Repointing a header and marking it good depends only on its body. */
  lemma GoodRepointOfBody(crc: Crc, a: seq<byte>, h: seq<byte>, entries: seq<byte>)
    requires IsHeader(a) && IsHeader(h) && SameBody(a, h)
    requires h[..|SIGNATURE|] == SIGNATURE
    ensures Mark(crc, Repoint(crc, a, entries), true) == Repoint(crc, h, entries)
  {
    var m := Repoint(crc, a, entries);
    var back := SetSignature(m, true);
    var want := Put4(h, PARTITION_CRC_OFFSET, crc(entries));
    assert forall i :: 0 <= i < 9 ==> h[i] == h[..9][i];
    RepointedState(crc, a, entries);
    Get4Injective(m, want, PARTITION_CRC_OFFSET);
    SealIgnoresCrcField(crc, back, want);
  }

  /** Repointing a complete copy to the array it already describes changes nothing. */
  lemma RepointFixpoint(crc: Crc, h: seq<byte>, entries: seq<byte>)
    requires Complete(crc, h, entries)
    ensures Repoint(crc, h, entries) == h
  {
    var want := Put4(h, PARTITION_CRC_OFFSET, crc(entries));
    Get4Injective(h, want, PARTITION_CRC_OFFSET);
    assert h == want;
    SealFixpoint(crc, h);
  }

  /** What one full update does to the secondary header: repointed to the swapped array,
      corrupted, repointed to the normal array, fixed. */
  lemma SecondaryRoundTrip(crc: Crc, h: seq<byte>, swapped: seq<byte>, normal: seq<byte>)
    requires IsHeader(h) && StateOf(crc, h) == GPT_OK
    ensures Mark(crc, Repoint(crc, Mark(crc, Repoint(crc, h, swapped), false), normal), true) == Repoint(crc, h, normal)
  {
    GoodRepointOfBody(crc, Mark(crc, Repoint(crc, h, swapped), false), h, normal);
  }
}
