/** The smallest device the model admits, and two disks on it: one the update starts from, and one that
    prepare_partitions ruins. */
module GptExample {
  import opened Bytes
  import opened GptHeader
  import opened GptEntryArray
  import opened FailSafe
  import opened GptBlocks
  import opened GptDevice
  import opened GptUpdate
  import opened GptTheorems

  /** Five blocks of 128 bytes: the protective record, primary header, primary entries, secondary entries,
      secondary header. */
  const SMALL: Geometry := Geometry(128, 640, 256, 384, 1, 128)

  lemma SmallIsValid()
    ensures SMALL.Valid() && SMALL.ArraySize() == 128
  {
    assert Base(1, 128) == 128;
    forall r, s | r != s
      ensures SMALL.Disjoint(r, s)
    {
      match r {
        case HeaderOf(copy) => assert copy.Primary? || copy.Secondary?;
        case EntriesIn(copy) => assert copy.Primary? || copy.Secondary?;
      }
    }
  }

  /** A header block, before it is sealed, that puts an array of one entry at a block address. */
  function SmallFields(lba: uint32): (h: Block)
    ensures |h| == 128 && IsHeader(h) && Get8(h, PENTRIES_OFFSET) == lba
    ensures Get4(h, HEADER_SIZE_OFFSET) == 92 && Get4(h, PARTITION_COUNT_OFFSET) == 1
    ensures Get4(h, PENTRY_SIZE_OFFSET) == 128
  {
    var sized := Put4(seq(128, i => 0), HEADER_SIZE_OFFSET, 92);
    var placed := Put4(Put4(sized, PENTRIES_OFFSET, lba), PENTRIES_OFFSET + 4, 0);
    Put4(Put4(placed, PARTITION_COUNT_OFFSET, 1), PENTRY_SIZE_OFFSET, 128)
  }

  /** The block address of a copy's entries. */
  function SmallLba(copy: Copy): (lba: uint32)
    ensures ByteOffset(lba, 128) == SMALL.Off(EntriesIn(copy))
  {
    assert Base(2, 128) == 256 && Base(3, 128) == 384;
    if copy == Primary then 2 else 3
  }

  lemma SmallFieldsLaidOut(copy: Copy)
    ensures SMALL.LaidOut(SmallFields(SmallLba(copy)), copy)
  {
  }

  /** The header of a copy, with a good signature and a good CRC. */
  function SmallHeader(crc: Crc, copy: Copy): Block {
    Mark(crc, SmallFields(SmallLba(copy)), true)
  }

  lemma SmallHeaderIsGood(crc: Crc, copy: Copy)
    ensures BlockState(crc, SmallHeader(crc, copy)) == GPT_OK
  {
    MarkedState(crc, SmallFields(SmallLba(copy)), true);
  }

  lemma SmallHeaderLaidOut(crc: Crc, copy: Copy)
    ensures SMALL.LaidOut(SmallHeader(crc, copy), copy)
  {
    var fields := SmallFields(SmallLba(copy));
    SmallFieldsLaidOut(copy);
    MarkedState(crc, fields, true);
    SameLayout(SMALL, fields, SmallHeader(crc, copy), copy);
  }

  /** The disk of two complete copies around a. */
  ghost function GoodDisk(env: Env, a: Block): Blocks {
    TwoCopies(env.codec, SmallHeader(env.crc, Primary), SmallHeader(env.crc, Secondary), a)
  }

  /** The disk whose corrupted primary header was written for b. */
  ghost function ForeignDisk(env: Env, a: Block, b: Block): Blocks {
    ForeignPrimary(env.codec, SmallHeader(env.crc, Primary), SmallHeader(env.crc, Secondary), a, b)
  }

  /** Rewriting keeps both headers of such a disk in their layout. */
  lemma RewrittenLaidOut(c: Codec<Block, Block>, laid: (Block, Copy) -> bool, ph: Block, sh: Block, a: Block, b: Block)
    requires Laws(c) && KeepsLayout(c, laid) && c.state(ph) == GPT_OK && c.state(sh) == GPT_OK
    requires laid(ph, Primary) && laid(sh, Secondary)
    ensures laid(TwoCopies(c, ph, sh, a).ph, Primary) && laid(TwoCopies(c, ph, sh, a).sh, Secondary)
    ensures laid(ForeignPrimary(c, ph, sh, a, b).ph, Primary)
  {
  }

  lemma BothLaidOut(env: Env, a: Block, b: Block)
    requires Sound(env, SMALL)
    ensures SMALL.LaidOut(GoodDisk(env, a).ph, Primary) && SMALL.LaidOut(GoodDisk(env, a).sh, Secondary)
    ensures SMALL.LaidOut(ForeignDisk(env, a, b).ph, Primary)
  {
    var ph, sh := SmallHeader(env.crc, Primary), SmallHeader(env.crc, Secondary);
    HeadersAreGood(env);
    SmallHeaderLaidOut(env.crc, Primary);
    SmallHeaderLaidOut(env.crc, Secondary);
    CodecIsLawful(env, SMALL);
    RewriteKeepsLayout(env, SMALL);
    RewrittenLaidOut(env.codec, (h, copy) => SMALL.LaidOut(h, copy), ph, sh, a, b);
  }

  lemma HeadersAreGood(env: Env)
    requires Sound(env, SMALL)
    ensures env.codec.state(SmallHeader(env.crc, Primary)) == GPT_OK
    ensures env.codec.state(SmallHeader(env.crc, Secondary)) == GPT_OK
  {
    SmallHeaderIsGood(env.crc, Primary);
    SmallHeaderIsGood(env.crc, Secondary);
  }

  lemma SizeKept(crc: Crc, h: Block, a: Block)
    requires IsHeader(h)
    ensures Get4(Repoint(crc, Mark(crc, h, true), a), HEADER_SIZE_OFFSET) == Get4(h, HEADER_SIZE_OFFSET)
  {
    Get4Frame(Repoint(crc, Mark(crc, h, true), a), h, HEADER_SIZE_OFFSET);
  }

  lemma SizesAgree(env: Env, a: Block)
    requires Sound(env, SMALL) && 92 <= |GoodDisk(env, a).ph| && 92 <= |GoodDisk(env, a).sh|
    ensures Get4(GoodDisk(env, a).ph, HEADER_SIZE_OFFSET) == Get4(GoodDisk(env, a).sh, HEADER_SIZE_OFFSET) == 92
  {
    var ph, sh := SmallHeader(env.crc, Primary), SmallHeader(env.crc, Secondary);
    assert env.codec.repoint(ph, a) == RepointBlock(env.crc, ph, a);
    assert env.codec.repoint(sh, a) == RepointBlock(env.crc, sh, a);
    SizeKept(env.crc, SmallFields(SmallLba(Primary)), a);
    SizeKept(env.crc, SmallFields(SmallLba(Secondary)), a);
  }

  /** What the update and the gpt_disk calls ask of a disk can be met, for every checksum and array. */
  lemma GoodDiskServes(env: Env, a: Block)
    requires Sound(env, SMALL)
    ensures var d := GoodDisk(env, a);
      && SMALL.Valid() && BothComplete(env, d) && WellLaid(env, SMALL, d)
      && SMALL.LaidOut(d.ph, Primary) && SMALL.LaidOut(d.sh, Secondary)
      && Get4(d.ph, HEADER_SIZE_OFFSET) == Get4(d.sh, HEADER_SIZE_OFFSET)
  {
    SmallIsValid();
    CodecIsLawful(env, SMALL);
    HeadersAreGood(env);
    BothLaidOut(env, a, a);
    SizesAgree(env, a);
    CompleteInBytes(env, SMALL, GoodDisk(env, a).ph, a);
    CompleteInBytes(env, SMALL, GoodDisk(env, a).sh, a);
  }

  /** The next BACKUP call on the foreign disk leaves no complete copy, for every checksum that tells the two
      arrays apart. */
  lemma ForeignDiskIsRuined(env: Env, a: Block, b: Block)
    requires Sound(env, SMALL) && env.crc(a) != env.crc(b)
    ensures var d := ForeignDisk(env, a, b);
      && WellLaid(env, SMALL, d) && CompleteSecondary(env.codec, d) && !Rerunnable(env.codec, d)
      && !OneComplete(env.codec, Finished(env.codec, env.switchLun, d, UPDATE_BACKUP))
  {
    var ph, sh := SmallHeader(env.crc, Primary), SmallHeader(env.crc, Secondary);
    HeadersAreGood(env);
    CodecIsLawful(env, SMALL);
    DescribesOne(env, env.codec.repoint(ph, b), a, b);
    ForeignPrimaryIsRuined(env.codec, env.switchLun, ph, sh, a, b);
    BothLaidOut(env, a, b);
  }

  lemma DescribesOne(env: Env, h: Block, a: Block, b: Block)
    requires Sound(env, SMALL) && env.crc(a) != env.crc(b) && env.codec.describes(h, b)
    ensures !env.codec.describes(h, a)
  {
    assert env.codec.describes(h, a) == DescribesBlock(env.crc, h, a);
    assert env.codec.describes(h, b) == DescribesBlock(env.crc, h, b);
  }
}
