/** The gpt_disk API: both copies are read into memory, edited there, resealed, and written back. */
module GptCommit {
  import opened Bytes
  import opened GptHeader
  import opened FailSafe
  import opened GptBlocks
  import opened GptDevice
  import opened GptUpdate

  const GPT_DISK_INIT_MAGIC: nat := 0xABCD

  /** A header resealed around an array, its CRC taken over headerSize bytes. */
  function RepointOver(crc: Crc, h: Block, entries: Block, headerSize: nat): (r: Block)
    requires |h| >= 92 && headerSize <= |h|
    ensures |r| == |h|
    ensures forall i :: 20 <= i < |h| && !(88 <= i < 92) ==> r[i] == h[i]
  {
    var p := Put4(h, PARTITION_CRC_OFFSET, crc(entries));
    Put4(p, HEADER_CRC_OFFSET, crc(Put4(p, HEADER_CRC_OFFSET, 0)[..headerSize]))
  }

  /** gpt_disk_update_crc takes both header CRCs over the primary's header size. The backup header
      comes out with a good CRC exactly when the checksum over that many bytes is the checksum over
      its own header size; equal sizes are enough. */
  lemma ResealedState(crc: Crc, h: Block, entries: Block, headerSize: nat)
    requires IsHeader(h) && headerSize <= |h|
    ensures var r := RepointOver(crc, h, entries, headerSize);
      var cleared := Put4(Put4(h, PARTITION_CRC_OFFSET, crc(entries)), HEADER_CRC_OFFSET, 0);
      BlockState(crc, r) != GPT_BAD_CRC <==> crc(cleared[..headerSize]) == crc(cleared[..Get4(h, HEADER_SIZE_OFFSET)])
    ensures headerSize == Get4(h, HEADER_SIZE_OFFSET) ==>
      RepointOver(crc, h, entries, headerSize) == Repoint(crc, h, entries)
  {
    var p := Put4(h, PARTITION_CRC_OFFSET, crc(entries));
    var r := RepointOver(crc, h, entries, headerSize);
    SealIgnoresCrcField(crc, p, r);
    SealIgnoresCrcField(crc, Seal(crc, p), r);
    assert HeaderCrc(crc, r) == crc(Put4(p, HEADER_CRC_OFFSET, 0)[..Get4(h, HEADER_SIZE_OFFSET)]);
  }

  /** A checksum that tells lengths apart. */
  function LengthCrc(b: seq<byte>): uint32 {
    if |b| < 0x1_0000_0000 then |b| else 0
  }

  /** Whatever function crc32 is, the backup header comes out good exactly when its own header size is the
      primary's: a header of another size goes bad under a checksum that tells the two lengths apart. */
  lemma ResealedGoodIff(h: Block, entries: Block, headerSize: nat)
    requires IsHeader(h) && headerSize <= |h| < 0x1_0000_0000
    ensures (forall crc: Crc :: BlockState(crc, RepointOver(crc, h, entries, headerSize)) != GPT_BAD_CRC)
       <==> headerSize == Get4(h, HEADER_SIZE_OFFSET)
  {
    forall crc: Crc
      ensures headerSize == Get4(h, HEADER_SIZE_OFFSET) ==>
        BlockState(crc, RepointOver(crc, h, entries, headerSize)) != GPT_BAD_CRC
    {
      ResealedState(crc, h, entries, headerSize);
    }
    var crc: Crc := LengthCrc;
    ResealedState(crc, h, entries, headerSize);
    assert headerSize != Get4(h, HEADER_SIZE_OFFSET) ==>
      BlockState(crc, RepointOver(crc, h, entries, headerSize)) == GPT_BAD_CRC;
  }

  /** The image gpt_disk_update_crc makes of an edited one. */
  function Resealed(crc: Crc, d: Blocks): Blocks
    requires 92 <= |d.ph| == |d.sh| && Get4(d.ph, HEADER_SIZE_OFFSET) <= |d.ph|
  {
    var headerSize := Get4(d.ph, HEADER_SIZE_OFFSET);
    d.(ph := RepointOver(crc, d.ph, d.pe, headerSize), sh := RepointOver(crc, d.sh, d.se, headerSize))
  }

  function CopyOps(copy: Copy, h: Block, a: Block): seq<BlockOp> {
    [PutHeader(copy, h)] + [PutEntries(copy, a)]
  }

  /** The four writes that put an image on disk. */
  function CommitScript(d: Blocks): Script<Block, Block> {
    Script(CopyOps(Primary, d.ph, d.pe) + CopyOps(Secondary, d.sh, d.se), 0)
  }

  /** gpt_set_header, then gpt_set_pentry_arr at the offset the header announces. */
  method WriteCopy(dev: BlockDevice, copy: Copy, header: array<byte>, pentries: array<byte>)
    returns (r: int, ghost done: seq<BlockOp>)
    requires dev.Valid() && dev.g.LaidOut(header[..], copy) && pentries.Length == dev.g.ArraySize()
    requires header != dev.data && pentries != dev.data
    modifies dev`faults, dev.data
    ensures dev.Table() == After(old(dev.Table()), done) && SameOutside(dev.g, dev.data[..], old(dev.data[..]))
    ensures old(dev.faults) <= dev.faults
    ensures Ran(Script(CopyOps(copy, header[..], pentries[..]), 0), dev.faults > old(dev.faults), r, done)
  {
    ghost var d := dev.Table();
    ghost var first: seq<BlockOp> := [PutHeader(copy, header[..])];
    ghost var rest: seq<BlockOp> := [PutEntries(copy, pentries[..])];
    var off := HeaderOffset(dev, copy);
    r, done := dev.WriteWholeRegion(HeaderOf(copy), off, header);
    RanInTurn(first, rest, done, []);
    if r != 0 {
      return;
    }
    var start, _, _ := ArrayBounds(dev.g, header, copy);
    ghost var more;
    r, more := dev.WriteWholeRegion(EntriesIn(copy), start, pentries);
    RanInTurn(first, rest, [], more);
    AfterAppend(d, first, more);
    done := first + more;
  }

  lemma RepointKeepsLayout(crc: Crc, g: Geometry, h: Block, entries: Block, headerSize: nat, copy: Copy)
    requires g.LaidOut(h, copy) && headerSize <= |h|
    ensures g.LaidOut(RepointOver(crc, h, entries, headerSize), copy)
  {
    var r := RepointOver(crc, h, entries, headerSize);
    Get4Frame(r, h, PENTRIES_OFFSET);
    Get4Frame(r, h, PENTRIES_OFFSET + 4);
    Get4Frame(r, h, PARTITION_COUNT_OFFSET);
    Get4Frame(r, h, PENTRY_SIZE_OFFSET);
  }

  lemma RepointKeepsSize(crc: Crc, h: Block, entries: Block, headerSize: nat)
    requires |h| >= 92 && headerSize <= |h|
    ensures Get4(RepointOver(crc, h, entries, headerSize), HEADER_SIZE_OFFSET) == Get4(h, HEADER_SIZE_OFFSET)
  {
  }

  /** Four writes put the image on disk, whatever was there. */
  lemma CommitResult(d: Blocks, image: Blocks)
    ensures After(d, CommitScript(image).ops) == image.(lun := d.lun)
  {
    var first, rest := CopyOps(Primary, image.ph, image.pe), CopyOps(Secondary, image.sh, image.se);
    assert first == [PutHeader(Primary, image.ph), PutEntries(Primary, image.pe)];
    assert rest == [PutHeader(Secondary, image.sh), PutEntries(Secondary, image.se)];
    AfterAppend(d, first, rest);
    AfterList(d, first[0], first[1], first[0]);
    AfterList(After(d, first), rest[0], rest[1], rest[0]);
  }

  /** The header CRC recomputed over headerSize bytes, with its own field cleared first. */
  method SealOver(crc: Crc, header: array<byte>, headerSize: nat) returns (sum: uint32)
    requires 92 <= header.Length && headerSize <= header.Length
    modifies header
    ensures sum == crc(Put4(old(header[..]), HEADER_CRC_OFFSET, 0)[..headerSize])
    ensures header[..] == Put4(old(header[..]), HEADER_CRC_OFFSET, sum)
  {
    ghost var h := header[..];
    Put4InPlace(header, HEADER_CRC_OFFSET, 0);
    assert header[..headerSize] == Put4(h, HEADER_CRC_OFFSET, 0)[..headerSize];
    sum := crc(header[..headerSize]);
    Put4InPlace(header, HEADER_CRC_OFFSET, sum);
    SameField(header[..], Put4(h, HEADER_CRC_OFFSET, sum));
  }

  /** Both headers take their array CRCs, then both are sealed over the primary's header size. */
  method ResealPair(crc: Crc, hdr: array<byte>, sum: uint32, hdrBak: array<byte>, sumBak: uint32,
      ghost entries: Block, ghost entriesBak: Block)
    returns (hdrCrc: uint32, hdrBakCrc: uint32)
    requires 92 <= hdr.Length == hdrBak.Length && hdr != hdrBak && Get4(hdr[..], HEADER_SIZE_OFFSET) <= hdr.Length
    requires sum == crc(entries) && sumBak == crc(entriesBak)
    modifies hdr, hdrBak
    ensures hdr[..] == RepointOver(crc, old(hdr[..]), entries, Get4(old(hdr[..]), HEADER_SIZE_OFFSET))
    ensures hdrBak[..] == RepointOver(crc, old(hdrBak[..]), entriesBak, Get4(old(hdr[..]), HEADER_SIZE_OFFSET))
    ensures hdrCrc == Get4(hdr[..], HEADER_CRC_OFFSET) && hdrBakCrc == Get4(hdrBak[..], HEADER_CRC_OFFSET)
  {
    Put4InPlace(hdr, PARTITION_CRC_OFFSET, sum);
    Put4InPlace(hdrBak, PARTITION_CRC_OFFSET, sumBak);
    var headerSize := Get4(hdr[..], HEADER_SIZE_OFFSET);
    hdrCrc := SealOver(crc, hdr, headerSize);
    hdrBakCrc := SealOver(crc, hdrBak, headerSize);
  }

  class GptDisk {
    var hdr: array<byte>
    var hdrCrc: uint32
    var hdrBak: array<byte>
    var hdrBakCrc: uint32
    var pentryArr: array<byte>
    var pentryArrBak: array<byte>
    var pentryArrSize: nat
    var pentrySize: nat
    var pentryArrCrc: uint32
    var pentryArrBakCrc: uint32
    var blockSize: nat
    var isInitialized: nat

    /** gpt_disk_alloc: a zeroed structure. */
    constructor ()
      ensures isInitialized == 0 && fresh(hdr) && fresh(hdrBak) && fresh(pentryArr) && fresh(pentryArrBak)
    {
      hdr, hdrBak, pentryArr, pentryArrBak := new byte[0], new byte[0], new byte[0], new byte[0];
      hdrCrc, hdrBakCrc, pentryArrCrc, pentryArrBakCrc := 0, 0, 0, 0;
      pentryArrSize, pentrySize, blockSize, isInitialized := 0, 0, 0, 0;
    }

    /** Four separate buffers, as malloc returned them. */
    ghost predicate Distinct()
      reads this
    {
      && hdr != hdrBak && hdr != pentryArr && hdr != pentryArrBak
      && hdrBak != pentryArr && hdrBak != pentryArrBak && pentryArr != pentryArrBak
      && 92 <= hdr.Length == hdrBak.Length
    }

    /** ... of the shapes the two headers announce. */
    ghost predicate Loaded(g: Geometry)
      reads this, hdr, hdrBak
    {
      && isInitialized == GPT_DISK_INIT_MAGIC && g.Valid()
      && Distinct()
      && g.LaidOut(hdr[..], Primary) && g.LaidOut(hdrBak[..], Secondary)
      && pentryArr.Length == g.ArraySize() && pentryArrBak.Length == g.ArraySize()
    }

    /** What the structure holds, as the table it would be on disk. */
    ghost function Image(lun: nat): Blocks
      reads this, hdr, hdrBak, pentryArr, pentryArrBak
    {
      Disk(hdr[..], pentryArr[..], hdrBak[..], pentryArrBak[..], lun)
    }

    /** gpt_get_header: one header block, freshly allocated. */
    method GetHeader(dev: BlockDevice, copy: Copy) returns (r: int, h: array<byte>)
      requires dev.Valid()
      modifies dev`faults
      ensures r == 0 || r == -1
      ensures dev.faults == old(dev.faults) + if r == 0 then 0 else 1
      ensures fresh(h)
      ensures r == 0 ==> h[..] == HeaderIn(dev.Table(), copy)
    {
      h := new byte[dev.g.blk];
      var off := HeaderOffset(dev, copy);
      r := dev.BlkRead(off, h);
    }

    /** gpt_get_pentry_arr: the array a header announces, freshly allocated. */
    method GetPentryArr(dev: BlockDevice, h: array<byte>, copy: Copy) returns (r: int, arr: array<byte>)
      requires dev.Valid() && dev.g.LaidOut(h[..], copy)
      modifies dev`faults
      ensures r == 0 || r == -1
      ensures dev.faults == old(dev.faults) + if r == 0 then 0 else 1
      ensures fresh(arr)
      ensures r == 0 ==> arr[..] == if copy == Primary then dev.Table().pe else dev.Table().se
    {
      var size;
      r, arr, size := ReadArray(dev, h, copy);
    }

    /** The plain fields are the device's entry size, array size and block size, and the array CRCs that the
        headers hold: of complete copies, those of the arrays. */
    ghost predicate Fields(crc: Crc, g: Geometry)
      reads this, hdr, hdrBak, pentryArr, pentryArrBak
    {
      && pentrySize == g.size && pentryArrSize == g.ArraySize() && blockSize == g.blk
      && (DescribesBlock(crc, hdr[..], pentryArr[..]) ==> pentryArrCrc == crc(pentryArr[..]))
      && (DescribesBlock(crc, hdrBak[..], pentryArrBak[..]) ==> pentryArrBakCrc == crc(pentryArrBak[..]))
    }

    /** Both header CRC fields, each over the primary's header size. */
    ghost predicate HeaderCrcs(crc: Crc)
      reads this`hdr, this`hdrBak, this`hdrCrc, this`hdrBakCrc, hdr, hdrBak
    {
      && 92 <= hdr.Length == hdrBak.Length && Get4(hdr[..], HEADER_SIZE_OFFSET) <= hdr.Length
      && hdrCrc == crc(hdr[..Get4(hdr[..], HEADER_SIZE_OFFSET)])
      && hdrBakCrc == crc(hdrBak[..Get4(hdr[..], HEADER_SIZE_OFFSET)])
    }

    /** gpt_disk_get_disk_info. */
    method GetDiskInfo(crc: Crc, dev: BlockDevice) returns (r: int)
      requires dev.Valid() && dev.g.LaidOut(dev.Table().ph, Primary) && dev.g.LaidOut(dev.Table().sh, Secondary)
      requires Get4(dev.Table().ph, HEADER_SIZE_OFFSET) <= dev.g.blk
      modifies this, dev`faults
      ensures r == 0 || r == -1
      ensures dev.faults == old(dev.faults) + if r == 0 then 0 else 1
      ensures r == 0 ==> fresh(hdr) && fresh(hdrBak) && fresh(pentryArr) && fresh(pentryArrBak)
      ensures r == 0 ==> Loaded(dev.g) && Image(dev.lun) == dev.Table()
      ensures r == 0 ==> HeaderCrcs(crc) && Fields(crc, dev.g)
    {
      r := GetHeaders(crc, dev);
      if r == 0 {
        r := GetRest(crc, dev);
      }
    }

    /** Both arrays, where their headers say, and the plain fields. */
    method GetRest(ghost crc: Crc, dev: BlockDevice) returns (r: int)
      requires dev.Valid() && dev.g.LaidOut(hdr[..], Primary) && dev.g.LaidOut(hdrBak[..], Secondary)
      modifies `pentryArr, `pentryArrBak, `pentrySize, `pentryArrSize, `pentryArrCrc, `pentryArrBakCrc, `blockSize
      modifies `isInitialized, dev`faults
      ensures r == 0 || r == -1
      ensures dev.faults == old(dev.faults) + if r == 0 then 0 else 1
      ensures r == 0 ==> fresh(pentryArr) && fresh(pentryArrBak) && pentryArr != pentryArrBak
      ensures r == 0 ==> pentryArr[..] == dev.Table().pe && pentryArrBak[..] == dev.Table().se
      ensures r == 0 ==> isInitialized == GPT_DISK_INIT_MAGIC && Fields(crc, dev.g)
    {
      r, pentryArr := GetPentryArr(dev, hdr, Primary);
      if r == 0 {
        r, pentryArrBak := GetPentryArr(dev, hdrBak, Secondary);
        if r == 0 {
          FillFields(crc, dev.g);
        }
      }
    }

    /** The plain fields, taken from the two headers. */
    method FillFields(ghost crc: Crc, g: Geometry)
      requires g.Valid() && g.LaidOut(hdr[..], Primary) && 92 <= hdrBak.Length
      modifies `pentrySize, `pentryArrSize, `pentryArrCrc, `pentryArrBakCrc, `blockSize, `isInitialized
      ensures isInitialized == GPT_DISK_INIT_MAGIC
      ensures Fields(crc, g)
    {
      NoOverflow(g);
      pentrySize := Get4(hdr[..], PENTRY_SIZE_OFFSET);
      pentryArrSize := Get4(hdr[..], PARTITION_COUNT_OFFSET) * pentrySize % 0x1_0000_0000;
      pentryArrCrc := Get4(hdr[..], PARTITION_CRC_OFFSET);
      pentryArrBakCrc := Get4(hdrBak[..], PARTITION_CRC_OFFSET);
      blockSize := g.blk;
      isInitialized := GPT_DISK_INIT_MAGIC;
    }

    /** Both headers; the CRC fields are filled over the primary's header size, CRC field included. */
    method GetHeaders(crc: Crc, dev: BlockDevice) returns (r: int)
      requires dev.Valid() && 92 <= dev.g.blk && |dev.Table().ph| == dev.g.blk
      requires Get4(dev.Table().ph, HEADER_SIZE_OFFSET) <= dev.g.blk
      modifies this, dev`faults
      ensures r == 0 || r == -1
      ensures dev.faults == old(dev.faults) + if r == 0 then 0 else 1
      ensures r == 0 ==> fresh(hdr) && fresh(hdrBak) && hdr != hdrBak
      ensures r == 0 ==> hdr[..] == dev.Table().ph && hdrBak[..] == dev.Table().sh
      ensures r == 0 ==> HeaderCrcs(crc)
    {
      r, hdr := GetHeader(dev, Primary);
      if r != 0 {
        return;
      }
      var headerSize := Get4(hdr[..], HEADER_SIZE_OFFSET);
      hdrCrc := crc(hdr[..headerSize]);
      r, hdrBak := GetHeader(dev, Secondary);
      if r != 0 {
        return;
      }
      hdrBakCrc := crc(hdrBak[..headerSize]);
    }

    /** gpt_disk_update_crc: refused before the structure is filled; otherwise both headers are
        resealed around the arrays held in memory. */
    method UpdateCrc(crc: Crc) returns (r: int)
      requires isInitialized == GPT_DISK_INIT_MAGIC ==> Distinct()
      requires isInitialized == GPT_DISK_INIT_MAGIC ==> Get4(hdr[..], HEADER_SIZE_OFFSET) <= hdr.Length
      modifies `hdrCrc, `hdrBakCrc, `pentryArrCrc, `pentryArrBakCrc, hdr, hdrBak
      ensures r == if isInitialized == GPT_DISK_INIT_MAGIC then 0 else -1
      ensures r == 0 ==> Image(0) == Resealed(crc, old(Image(0)))
      ensures r == 0 ==> pentryArrCrc == crc(pentryArr[..]) && pentryArrBakCrc == crc(pentryArrBak[..])
      ensures r == 0 ==>
        hdrCrc == Get4(hdr[..], HEADER_CRC_OFFSET) && hdrBakCrc == Get4(hdrBak[..], HEADER_CRC_OFFSET)
    {
      if isInitialized != GPT_DISK_INIT_MAGIC {
        return -1;
      }
      ResealLoaded(crc);
      return 0;
    }

    method ResealLoaded(crc: Crc)
      requires Distinct() && Get4(hdr[..], HEADER_SIZE_OFFSET) <= hdr.Length
      modifies `hdrCrc, `hdrBakCrc, `pentryArrCrc, `pentryArrBakCrc, hdr, hdrBak
      ensures Image(0) == Resealed(crc, old(Image(0)))
      ensures pentryArrCrc == crc(pentryArr[..]) && pentryArrBakCrc == crc(pentryArrBak[..])
      ensures hdrCrc == Get4(hdr[..], HEADER_CRC_OFFSET) && hdrBakCrc == Get4(hdrBak[..], HEADER_CRC_OFFSET)
    {
      ghost var entries, entriesBak := pentryArr[..], pentryArrBak[..];
      pentryArrCrc := crc(pentryArr[..]);
      pentryArrBakCrc := crc(pentryArrBak[..]);
      hdrCrc, hdrBakCrc := ResealPair(crc, hdr, pentryArrCrc, hdrBak, pentryArrBakCrc, entries, entriesBak);
    }

    /** gpt_disk_commit: primary header, primary entries, secondary header, secondary entries. */
    method Commit(dev: BlockDevice) returns (r: int, ghost done: seq<BlockOp>)
      requires dev.Valid() && (isInitialized == GPT_DISK_INIT_MAGIC ==> Loaded(dev.g))
      requires dev.data != hdr && dev.data != hdrBak && dev.data != pentryArr && dev.data != pentryArrBak
      modifies dev`faults, dev.data
      ensures dev.Table() == After(old(dev.Table()), done) && SameOutside(dev.g, dev.data[..], old(dev.data[..]))
      ensures old(dev.faults) <= dev.faults
      ensures isInitialized == GPT_DISK_INIT_MAGIC ==>
        Ran(CommitScript(Image(0)), dev.faults > old(dev.faults), r, done)
      ensures isInitialized != GPT_DISK_INIT_MAGIC ==> r == -1 && done == []
    {
      done := [];
      if isInitialized != GPT_DISK_INIT_MAGIC {
        return -1, done;
      }
      ghost var d := dev.Table();
      ghost var first, rest := CopyOps(Primary, hdr[..], pentryArr[..]),
        CopyOps(Secondary, hdrBak[..], pentryArrBak[..]);
      r, done := WriteCopy(dev, Primary, hdr, pentryArr);
      RanInTurn(first, rest, done, []);
      if r != 0 {
        return;
      }
      ghost var more;
      r, more := WriteCopy(dev, Secondary, hdrBak, pentryArrBak);
      RanInTurn(first, rest, [], more);
      AfterAppend(d, first, more);
      done := first + more;
    }
  }
}
