/** The fail-safe protocol's theorems, for GPT blocks on a real device image. */
module GptTheorems {
  import opened Bytes
  import opened GptHeader
  import opened GptEntries
  import opened FailSafe
  import opened GptBlocks
  import opened GptDevice
  import opened GptUpdate
  import opened GptCommit

  /** Both copies of a table are complete, in bytes. */
  ghost predicate BothComplete(env: Env, d: Blocks) {
    Complete(env.crc, d.ph, d.pe) && Complete(env.crc, d.sh, d.se)
  }

  /** The protocol's notion of a complete copy is: good signature, good header CRC, good array CRC. */
  lemma CompleteInBytes(env: Env, g: Geometry, h: Block, a: Block)
    requires Sound(env, g)
    ensures env.codec.state(h) == GPT_OK && env.codec.describes(h, a) <==> Complete(env.crc, h, a)
  {
    assert env.codec.state(h) == BlockState(env.crc, h);
    assert env.codec.describes(h, a) == DescribesBlock(env.crc, h, a);
  }

  lemma CodecIsLawful(env: Env, g: Geometry)
    requires Sound(env, g)
    ensures Laws(env.codec)
  {
    GptObeysLaws(env.codec, env.crc, env.rule, g.size, g.count);
  }

  /** There is such an environment for every checksum, device kind and geometry. */
  lemma SoundEnvExists(crc: Crc, ufs: bool, switchLun: bool, g: Geometry)
    requires switchLun ==> ufs
    ensures Sound(Env(crc, ufs, switchLun, BootRule(ufs), GptCodec(crc, BootRule(ufs), g.size, g.count)), g)
  {
    SwapListIndependent(ufs);
    CodecImplements(crc, BootRule(ufs), g.size, g.count);
  }

  /** Crash safety of prepare_partitions: from two complete copies, whatever stages are asked for and
      wherever the calls are cut, as long as every disk a call is made on may be rerun, at every write
      boundary one copy is complete. */
  lemma PreparePartitionsCrashSafe(env: Env, g: Geometry, d: Blocks, calls: seq<Call<Block, Block>>)
    requires Sound(env, g) && BothComplete(env, d)
    requires PossibleRun(env.codec, env.switchLun, d, calls)
    ensures AlwaysOneComplete(env.codec, d, calls)
  {
    CodecIsLawful(env, g);
    CompleteInBytes(env, g, d.ph, d.pe);
    CrashSafety(env.codec, env.switchLun, d, calls);
  }

  // ------------------------------------------------------------------------
  // Calls can follow one another
  // ------------------------------------------------------------------------

  /** A header rewritten by gpt-utils keeps its layout. */
  lemma MarkKeepsLayout(env: Env, g: Geometry, h: Block, good: bool, copy: Copy)
    requires Sound(env, g) && env.codec.state(h) != GPT_BAD_CRC && g.LaidOut(h, copy)
    ensures g.LaidOut(env.codec.mark(h, good), copy)
  {
    assert env.codec.state(h) == BlockState(env.crc, h);
    assert env.codec.mark(h, good) == MarkBlock(env.crc, h, good) == Mark(env.crc, h, good);
    MarkedState(env.crc, h, good);
    SameLayout(g, h, Mark(env.crc, h, good), copy);
  }

  lemma RepointedLayout(env: Env, g: Geometry, h: Block, a: Block, copy: Copy)
    requires Sound(env, g) && env.codec.state(h) != GPT_BAD_CRC && g.LaidOut(h, copy)
    ensures g.LaidOut(env.codec.repoint(h, a), copy)
  {
    assert env.codec.state(h) == BlockState(env.crc, h);
    assert env.codec.repoint(h, a) == RepointBlock(env.crc, h, a) == Repoint(env.crc, h, a);
    SameLayout(g, h, Repoint(env.crc, h, a), copy);
  }

  /** Rewriting keeps the layout of every header whose CRC is good. */
  ghost predicate KeepsLayout(c: Codec<Block, Block>, laid: (Block, Copy) -> bool) {
    && (forall h, good, copy :: c.state(h) != GPT_BAD_CRC && laid(h, copy) ==> laid(c.mark(h, good), copy))
    && (forall h, a, copy :: c.state(h) != GPT_BAD_CRC && laid(h, copy) ==> laid(c.repoint(h, a), copy))
  }

  lemma RewriteKeepsLayout(env: Env, g: Geometry)
    requires Sound(env, g)
    ensures KeepsLayout(env.codec, (h, copy) => g.LaidOut(h, copy))
  {
    forall h, good, copy | env.codec.state(h) != GPT_BAD_CRC && g.LaidOut(h, copy)
      ensures g.LaidOut(env.codec.mark(h, good), copy)
    {
      MarkKeepsLayout(env, g, h, good, copy);
    }
    forall h, a, copy | env.codec.state(h) != GPT_BAD_CRC && g.LaidOut(h, copy)
      ensures g.LaidOut(env.codec.repoint(h, a), copy)
    {
      RepointedLayout(env, g, h, a, copy);
    }
  }

  lemma SameLayout(g: Geometry, h: Block, r: Block, copy: Copy)
    requires g.LaidOut(h, copy) && |r| == |h|
    requires forall i :: 72 <= i < 88 ==> r[i] == h[i]
    ensures g.LaidOut(r, copy)
  {
    Get4Frame(r, h, PENTRIES_OFFSET);
    Get4Frame(r, h, PENTRIES_OFFSET + 4);
    Get4Frame(r, h, PARTITION_COUNT_OFFSET);
    Get4Frame(r, h, PENTRY_SIZE_OFFSET);
  }

  /** Every header a call writes has the layout of its copy. */
  ghost predicate WritesLaidOut(laid: (Block, Copy) -> bool, ops: seq<BlockOp>) {
    forall op :: op in ops && op.PutHeader? ==> laid(op.h, op.copy)
  }

  lemma StageWritesLaidOut(c: Codec<Block, Block>,
                           laid: (Block, Copy) -> bool, switchLun: bool, d: Blocks, stage: Stage)
    requires Laws(c) && KeepsLayout(c, laid)
    requires c.state(d.ph) != GPT_BAD_CRC ==> laid(d.ph, Primary)
    requires c.state(d.sh) != GPT_BAD_CRC ==> laid(d.sh, Secondary)
    ensures WritesLaidOut(laid, Prepare(c, switchLun, d, stage).ops)
  {
  }

  lemma PrepareWritesLaidOut(env: Env, g: Geometry, d: Blocks, stage: Stage)
    requires Sound(env, g) && WellLaid(env, g, d)
    ensures WritesLaidOut((h, copy) => g.LaidOut(h, copy), Prepare(env.codec, env.switchLun, d, stage).ops)
  {
    CodecIsLawful(env, g);
    RewriteKeepsLayout(env, g);
    StageWritesLaidOut(env.codec, (h, copy) => g.LaidOut(h, copy), env.switchLun, d, stage);
  }

  ghost predicate GoodHeadersLaid(c: Codec<Block, Block>, laid: (Block, Copy) -> bool, d: Blocks) {
    && (c.state(d.ph) != GPT_BAD_CRC ==> laid(d.ph, Primary))
    && (c.state(d.sh) != GPT_BAD_CRC ==> laid(d.sh, Secondary))
  }

  lemma {:induction false} CutKeepsLayout(c: Codec<Block, Block>, laid: (Block, Copy) -> bool, d: Blocks,
                                          ops: seq<BlockOp>, done: seq<BlockOp>)
    requires GoodHeadersLaid(c, laid, d) && WritesLaidOut(laid, ops)
    requires Interrupted(ops, done) && Detectable(c, ops, done)
    ensures GoodHeadersLaid(c, laid, After(d, done))
    decreases |ops|
  {
    if done != [] {
      assert ops[0] in ops;
      if |done| > 1 {
        CutKeepsLayout(c, laid, Apply(d, done[0]), ops[1..], done[1..]);
      }
    }
  }

  /** After a call that ran through, or was cut after a write, or tore one visibly, the next call meets its
      precondition again. */
  lemma NextCallReady(env: Env, g: Geometry, d: Blocks, call: Call<Block, Block>)
    requires Sound(env, g) && WellLaid(env, g, d)
    requires Interrupted(Prepare(env.codec, env.switchLun, d, call.stage).ops, call.done)
    requires Detectable(env.codec, Prepare(env.codec, env.switchLun, d, call.stage).ops, call.done)
    ensures WellLaid(env, g, After(d, call.done))
  {
    PrepareWritesLaidOut(env, g, d, call.stage);
    CutKeepsLayout(env.codec, (h, copy) => g.LaidOut(h, copy), d,
                   Prepare(env.codec, env.switchLun, d, call.stage).ops, call.done);
  }

  lemma {:induction false} CleanRunReady(env: Env, g: Geometry, d: Blocks, calls: seq<Call<Block, Block>>)
    requires Sound(env, g) && WellLaid(env, g, d) && CleanRun(env.codec, env.switchLun, d, calls)
    ensures WellLaid(env, g, AfterCalls(d, calls))
    decreases |calls|
  {
    if calls != [] {
      NextCallReady(env, g, d, calls[0]);
      CleanRunReady(env, g, After(d, calls[0].done), calls[1..]);
    }
  }

  /** Crash safety of prepare_partitions with nothing assumed of the disks in between: calls that run
      through, stop after any write or tear one with no header torn unseen, rerun with any stages, and a last
      call leaving anything in the region it was writing. One copy is complete at every write boundary, and
      every call finds the device in order. */
  lemma PreparePartitionsInterrupted(env: Env, g: Geometry, d: Blocks, calls: seq<Call<Block, Block>>,
                                     last: Call<Block, Block>)
    requires Sound(env, g) && BothComplete(env, d) && WellLaid(env, g, d)
    requires CleanRun(env.codec, env.switchLun, d, calls)
    requires Interrupted(Prepare(env.codec, env.switchLun, AfterCalls(d, calls), last.stage).ops, last.done)
    ensures AlwaysOneComplete(env.codec, d, calls + [last])
    ensures WellLaid(env, g, AfterCalls(d, calls))
  {
    CodecIsLawful(env, g);
    CompleteInBytes(env, g, d.ph, d.pe);
    CleanRunCrashSafe(env.codec, env.switchLun, d, calls, last);
    CleanRunReady(env, g, d, calls);
  }

  // ------------------------------------------------------------------------
  // A whole update on the device
  // ------------------------------------------------------------------------

  /** The three stages in turn. They all return 0 exactly when no access fails, the primary copy's array CRC
      is right and it has backup partitions. Then the primary copy is what it was byte for byte, the
      secondary entries are the primary's, both copies are complete, and if the copies agreed at the
      start the whole device is restored. */
  method RunUpdate(env: Env, dev: BlockDevice) returns (ok: bool)
    requires dev.Valid() && Sound(env, dev.g) && WellLaid(env, dev.g, dev.Table())
    requires env.codec.state(dev.Table().ph) == GPT_OK && env.codec.state(dev.Table().sh) == GPT_OK
    modifies dev`lun, dev`faults, dev.data
    ensures var d := old(dev.Table());
      ok <==> dev.faults == old(dev.faults) && env.codec.describes(d.ph, d.pe) && env.codec.hasBackup(d.pe)
    ensures ok ==> dev.Table().ph == old(dev.Table()).ph && dev.Table().pe == old(dev.Table()).pe
    ensures ok ==> dev.Table().se == old(dev.Table()).pe && BothComplete(env, dev.Table())
    ensures ok && env.switchLun ==> dev.lun == BOOT_LUN_A_ID
    ensures ok && old(BothComplete(env, dev.Table()) && dev.Table().se == dev.Table().pe) ==>
      dev.data[..] == old(dev.data[..])
  {
    ghost var d := dev.Table();
    ghost var image := dev.data[..];
    ghost var done;
    var r;
    CodecIsLawful(env, dev.g);
    UpdateRuns(env.codec, env.switchLun, d);
    r, done := PreparePartitions(env, dev, UPDATE_MAIN);
    if r != 0 {
      return false;
    }
    AfterWholeCall(env, dev.g, d, UPDATE_MAIN);
    ghost var d1 := dev.Table();
    r, done := PreparePartitions(env, dev, UPDATE_BACKUP);
    if r != 0 {
      return false;
    }
    AfterWholeCall(env, dev.g, d1, UPDATE_BACKUP);
    r, done := PreparePartitions(env, dev, UPDATE_FINALIZE);
    if r != 0 {
      return false;
    }
    UpdateRestores(env, dev.g, d, image, dev.data[..], dev.lun);
    return true;
  }

  lemma AfterWholeCall(env: Env, g: Geometry, d: Blocks, stage: Stage)
    requires Sound(env, g) && WellLaid(env, g, d)
    ensures WellLaid(env, g, Finished(env.codec, env.switchLun, d, stage))
  {
    var ops := Prepare(env.codec, env.switchLun, d, stage).ops;
    WholeCallIsACut(env.codec, ops);
    NextCallReady(env, g, d, Call(stage, ops));
  }

  lemma UpdateRestores(env: Env, g: Geometry, d: Blocks, before: seq<byte>, after: seq<byte>, lun: nat)
    requires g.Valid() && Sound(env, g) && |before| == |after| == g.total
    requires env.codec.state(d.ph) == GPT_OK && env.codec.state(d.sh) == GPT_OK
    requires d == View(g, before, d.lun) && SameOutside(g, after, before)
    requires var d1 := Finished(env.codec, env.switchLun, d, UPDATE_MAIN);
      var d2 := Finished(env.codec, env.switchLun, d1, UPDATE_BACKUP);
      && Prepare(env.codec, env.switchLun, d, UPDATE_MAIN).rc == 0
      && Prepare(env.codec, env.switchLun, d1, UPDATE_BACKUP).rc == 0
      && Prepare(env.codec, env.switchLun, d2, UPDATE_FINALIZE).rc == 0
      && View(g, after, lun) == Finished(env.codec, env.switchLun, d2, UPDATE_FINALIZE)
    ensures var t := View(g, after, lun);
      && t.ph == d.ph && t.pe == d.pe && t.se == d.pe && BothComplete(env, t)
      && (env.switchLun ==> lun == BOOT_LUN_A_ID)
      && (BothComplete(env, d) && d.se == d.pe ==> after == before)
  {
    CodecIsLawful(env, g);
    FullCycle(env.codec, env.switchLun, d);
    var t := View(g, after, lun);
    CompleteInBytes(env, g, t.ph, t.pe);
    CompleteInBytes(env, g, t.sh, t.se);
    if BothComplete(env, d) && d.se == d.pe {
      CompleteInBytes(env, g, d.sh, d.pe);
      assert View(g, after, d.lun) == d;
      SameImage(g, after, before, d.lun);
    }
  }

  // ------------------------------------------------------------------------
  // gpt_disk
  // ------------------------------------------------------------------------

  /** Any edit of the two arrays, resealed and committed over a disk whose secondary copy is complete:
      a complete copy survives every cut of the four writes, and all four leave exactly the edited
      arrays on disk in two complete copies. */
  lemma EditCommitSafe(env: Env, g: Geometry, d: Blocks, edited: Blocks, done: seq<BlockOp>)
    requires Sound(env, g) && Complete(env.crc, d.sh, d.se)
    requires edited.ph == d.ph && edited.sh == d.sh
    requires BlockState(env.crc, d.ph) == GPT_OK && BlockState(env.crc, d.sh) == GPT_OK && |d.ph| == |d.sh|
    requires Get4(d.ph, HEADER_SIZE_OFFSET) == Get4(d.sh, HEADER_SIZE_OFFSET)
    requires Interrupted(CommitScript(Resealed(env.crc, edited)).ops, done)
    ensures forall k :: 0 <= k <= |done| ==> OneComplete(env.codec, After(d, done[..k]))
    ensures var r := After(d, CommitScript(Resealed(env.crc, edited)).ops);
      r.pe == edited.pe && r.se == edited.se && BothComplete(env, r)
  {
    var new_ := Resealed(env.crc, edited);
    ResealedState(env.crc, d.ph, edited.pe, Get4(d.ph, HEADER_SIZE_OFFSET));
    ResealedState(env.crc, d.sh, edited.se, Get4(d.ph, HEADER_SIZE_OFFSET));
    RepointedState(env.crc, d.ph, edited.pe);
    RepointedState(env.crc, d.sh, edited.se);
    assert Complete(env.crc, new_.ph, new_.pe) && Complete(env.crc, new_.sh, new_.se);
    CompleteInBytes(env, g, new_.ph, new_.pe);
    CompleteInBytes(env, g, new_.sh, new_.se);
    CompleteInBytes(env, g, d.sh, d.se);
    CommitSafety(env.codec, d, new_, done);
  }

  /** The headers of an edited image stay in their layout when they are resealed. */
  lemma ResealedLayout(env: Env, g: Geometry, edited: Blocks)
    requires g.LaidOut(edited.ph, Primary) && g.LaidOut(edited.sh, Secondary)
    requires Get4(edited.ph, HEADER_SIZE_OFFSET) <= |edited.ph|
    ensures g.LaidOut(Resealed(env.crc, edited).ph, Primary) && g.LaidOut(Resealed(env.crc, edited).sh, Secondary)
  {
    RepointKeepsLayout(env.crc, g, edited.ph, edited.pe, Get4(edited.ph, HEADER_SIZE_OFFSET), Primary);
    RepointKeepsLayout(env.crc, g, edited.sh, edited.se, Get4(edited.ph, HEADER_SIZE_OFFSET), Secondary);
  }

  /** gpt_disk_update_crc followed by gpt_disk_commit. */
  method ResealAndCommit(env: Env, dev: BlockDevice, disk: GptDisk) returns (r: int, ghost done: seq<BlockOp>)
    requires dev.Valid() && disk.Loaded(dev.g) && Get4(disk.hdr[..], HEADER_SIZE_OFFSET) <= dev.g.blk
    requires dev.data != disk.hdr && dev.data != disk.hdrBak && dev.data != disk.pentryArr
    requires dev.data != disk.pentryArrBak
    modifies dev`faults, dev.data
    modifies disk`hdrCrc, disk`hdrBakCrc, disk`pentryArrCrc, disk`pentryArrBakCrc, disk.hdr, disk.hdrBak
    ensures dev.Table() == After(old(dev.Table()), done)
    ensures old(dev.faults) <= dev.faults
    ensures Ran(CommitScript(Resealed(env.crc, old(disk.Image(0)))), dev.faults > old(dev.faults), r, done)
  {
    ghost var script := CommitScript(Resealed(env.crc, disk.Image(0)));
    Reseal(env, dev.g, disk);
    assert CommitScript(disk.Image(0)) == script;
    r, done := disk.Commit(dev);
  }

  /** gpt_disk_update_crc on a loaded structure, which stays loaded. */
  method Reseal(env: Env, g: Geometry, disk: GptDisk)
    requires disk.Loaded(g) && Get4(disk.hdr[..], HEADER_SIZE_OFFSET) <= g.blk
    modifies disk`hdrCrc, disk`hdrBakCrc, disk`pentryArrCrc, disk`pentryArrBakCrc, disk.hdr, disk.hdrBak
    ensures disk.Loaded(g) && disk.Image(0) == Resealed(env.crc, old(disk.Image(0)))
  {
    ResealedLayout(env, g, disk.Image(0));
    var r := disk.UpdateCrc(env.crc);
  }

  /** Commits what the caller has made of a loaded table's arrays, and loads the disk afresh: when
      nothing fails, the fresh structure holds the committed arrays, in two complete copies. */
  method CommitAndReload(env: Env, dev: BlockDevice, disk: GptDisk, again: GptDisk) returns (r: int)
    requires dev.Valid() && Sound(env, dev.g) && again != disk
    requires disk.Loaded(dev.g)
    requires dev.data != disk.hdr && dev.data != disk.hdrBak && dev.data != disk.pentryArr
    requires dev.data != disk.pentryArrBak
    requires BlockState(env.crc, disk.hdr[..]) == GPT_OK && BlockState(env.crc, disk.hdrBak[..]) == GPT_OK
    requires Get4(disk.hdr[..], HEADER_SIZE_OFFSET) == Get4(disk.hdrBak[..], HEADER_SIZE_OFFSET)
    requires dev.Table().ph == disk.hdr[..] && dev.Table().sh == disk.hdrBak[..]
    requires Complete(env.crc, dev.Table().sh, dev.Table().se)
    modifies dev`faults, dev.data
    modifies disk`hdrCrc, disk`hdrBakCrc, disk`pentryArrCrc, disk`pentryArrBakCrc, disk.hdr, disk.hdrBak, again
    ensures r == 0 <==> dev.faults == old(dev.faults)
    ensures OneComplete(env.codec, dev.Table())
    ensures r == 0 ==> again.Loaded(dev.g) && again.Image(dev.lun) == dev.Table() && BothComplete(env, dev.Table())
    ensures r == 0 ==>
      again.pentryArr[..] == old(disk.pentryArr[..]) && again.pentryArrBak[..] == old(disk.pentryArrBak[..])
  {
    r := CommitEdited(env, dev, disk);
    if r == 0 {
      r := Reload(env, dev, again);
    }
  }

  /** gpt_disk_get_disk_info on a device that it leaves as it is. */
  method Reload(env: Env, dev: BlockDevice, again: GptDisk) returns (r: int)
    requires dev.Valid() && dev.g.LaidOut(dev.Table().ph, Primary) && dev.g.LaidOut(dev.Table().sh, Secondary)
    requires Get4(dev.Table().ph, HEADER_SIZE_OFFSET) <= dev.g.blk
    modifies again, dev`faults
    ensures dev.faults == old(dev.faults) + if r == 0 then 0 else 1
    ensures dev.Table() == old(dev.Table())
    ensures r == 0 ==> again.Loaded(dev.g) && again.Image(dev.lun) == dev.Table()
    ensures r == 0 ==> again.pentryArr[..] == dev.Table().pe && again.pentryArrBak[..] == dev.Table().se
  {
    r := again.GetDiskInfo(env.crc, dev);
  }

  /** The whole cycle: loads the disk, overwrites the two arrays in memory, commits them and loads the disk
      afresh. It succeeds exactly when no access fails; a complete copy is left in any case. */
  method EditTable(env: Env, dev: BlockDevice, pe: Block, se: Block) returns (r: int)
    requires dev.Valid() && Sound(env, dev.g) && BothComplete(env, dev.Table())
    requires dev.g.LaidOut(dev.Table().ph, Primary) && dev.g.LaidOut(dev.Table().sh, Secondary)
    requires Get4(dev.Table().ph, HEADER_SIZE_OFFSET) == Get4(dev.Table().sh, HEADER_SIZE_OFFSET)
    requires |pe| == |se| == dev.g.ArraySize()
    modifies dev`faults, dev.data
    ensures r == 0 <==> dev.faults == old(dev.faults)
    ensures OneComplete(env.codec, dev.Table())
    ensures r == 0 ==> BothComplete(env, dev.Table()) && dev.Table().pe == pe && dev.Table().se == se
  {
    var disk := new GptDisk();
    var again := new GptDisk();
    CompleteInBytes(env, dev.g, dev.Table().ph, dev.Table().pe);
    r := LoadAndEdit(env, dev, disk, pe, se);
    if r == 0 {
      r := CommitAndReload(env, dev, disk, again);
    }
  }

  /** The disk loaded, and the two arrays overwritten in memory. */
  method LoadAndEdit(env: Env, dev: BlockDevice, disk: GptDisk, pe: Block, se: Block) returns (r: int)
    requires dev.Valid() && dev.g.LaidOut(dev.Table().ph, Primary) && dev.g.LaidOut(dev.Table().sh, Secondary)
    requires Get4(dev.Table().ph, HEADER_SIZE_OFFSET) <= dev.g.blk && |pe| == |se| == dev.g.ArraySize()
    modifies disk, dev`faults
    ensures dev.faults == old(dev.faults) + if r == 0 then 0 else 1
    ensures r == 0 ==> fresh(disk.hdr) && fresh(disk.hdrBak) && fresh(disk.pentryArr) && fresh(disk.pentryArrBak)
    ensures r == 0 ==> disk.Loaded(dev.g) && disk.Image(dev.lun) == dev.Table().(pe := pe, se := se)
  {
    r := disk.GetDiskInfo(env.crc, dev);
    if r == 0 {
      Overwrite(dev.g, disk, pe, se);
    }
  }

  /** The caller's edit of the two arrays in memory. */
  method Overwrite(ghost g: Geometry, disk: GptDisk, pe: Block, se: Block)
    requires disk.Loaded(g) && |pe| == |se| == g.ArraySize()
    modifies disk.pentryArr, disk.pentryArrBak
    ensures disk.Loaded(g) && disk.pentryArr[..] == pe && disk.pentryArrBak[..] == se
    ensures disk.hdr[..] == old(disk.hdr[..]) && disk.hdrBak[..] == old(disk.hdrBak[..])
  {
    PutBytes(disk.pentryArr, 0, pe);
    PutBytes(disk.pentryArrBak, 0, se);
    assert disk.pentryArr[..] == pe && disk.pentryArrBak[..] == se;
  }

  /** Commits what the caller has made of a loaded table's arrays: when nothing fails, the device holds
      them in two complete, readable copies. */
  method CommitEdited(env: Env, dev: BlockDevice, disk: GptDisk) returns (r: int)
    requires dev.Valid() && Sound(env, dev.g)
    requires disk.Loaded(dev.g)
    requires dev.data != disk.hdr && dev.data != disk.hdrBak && dev.data != disk.pentryArr
    requires dev.data != disk.pentryArrBak
    requires BlockState(env.crc, disk.hdr[..]) == GPT_OK && BlockState(env.crc, disk.hdrBak[..]) == GPT_OK
    requires Get4(disk.hdr[..], HEADER_SIZE_OFFSET) == Get4(disk.hdrBak[..], HEADER_SIZE_OFFSET)
    requires dev.Table().ph == disk.hdr[..] && dev.Table().sh == disk.hdrBak[..]
    requires Complete(env.crc, dev.Table().sh, dev.Table().se)
    modifies dev`faults, dev.data
    modifies disk`hdrCrc, disk`hdrBakCrc, disk`pentryArrCrc, disk`pentryArrBakCrc, disk.hdr, disk.hdrBak
    ensures old(dev.faults) <= dev.faults && (r == 0 <==> dev.faults == old(dev.faults))
    ensures OneComplete(env.codec, dev.Table())
    ensures r == 0 ==> BothComplete(env, dev.Table())
    ensures r == 0 ==> dev.Table().pe == old(disk.pentryArr[..]) && dev.Table().se == old(disk.pentryArrBak[..])
    ensures r == 0 ==> dev.g.LaidOut(dev.Table().ph, Primary) && dev.g.LaidOut(dev.Table().sh, Secondary)
    ensures r == 0 ==> Get4(dev.Table().ph, HEADER_SIZE_OFFSET) <= dev.g.blk
  {
    ghost var d, edited := dev.Table(), disk.Image(0);
    ghost var done;
    r, done := ResealAndCommit(env, dev, disk);
    CommitOutcome(env, dev.g, d, edited, dev.faults > old(dev.faults), r, done);
  }

  /** What a commit leaves on the device: always a complete copy, and all that was committed when no access
      failed. */
  lemma CommitOutcome(env: Env, g: Geometry, d: Blocks, edited: Blocks, faulty: bool, r: int, done: seq<BlockOp>)
    requires Sound(env, g) && Complete(env.crc, d.sh, d.se)
    requires edited.ph == d.ph && edited.sh == d.sh && g.LaidOut(d.ph, Primary) && g.LaidOut(d.sh, Secondary)
    requires BlockState(env.crc, d.ph) == GPT_OK && BlockState(env.crc, d.sh) == GPT_OK
    requires Get4(d.ph, HEADER_SIZE_OFFSET) == Get4(d.sh, HEADER_SIZE_OFFSET)
    requires Ran(CommitScript(Resealed(env.crc, edited)), faulty, r, done)
    ensures OneComplete(env.codec, After(d, done))
    ensures !faulty ==> var t := After(d, done);
      && BothComplete(env, t) && t.pe == edited.pe && t.se == edited.se
      && g.LaidOut(t.ph, Primary) && g.LaidOut(t.sh, Secondary) && Get4(t.ph, HEADER_SIZE_OFFSET) <= g.blk
  {
    EditCommitSafe(env, g, d, edited, done);
    CommittedReadable(env, g, d, edited);
    EndComplete(env.codec, d, done);
  }

  lemma EndComplete(c: Codec<Block, Block>, d: Blocks, done: seq<BlockOp>)
    requires forall k :: 0 <= k <= |done| ==> OneComplete(c, After(d, done[..k]))
    ensures OneComplete(c, After(d, done))
  {
    assert done[..|done|] == done;
  }

  lemma CommittedReadable(env: Env, g: Geometry, d: Blocks, edited: Blocks)
    requires edited.ph == d.ph && edited.sh == d.sh && g.LaidOut(d.ph, Primary) && g.LaidOut(d.sh, Secondary)
    requires Get4(d.ph, HEADER_SIZE_OFFSET) <= |d.ph|
    ensures var r := After(d, CommitScript(Resealed(env.crc, edited)).ops);
      g.LaidOut(r.ph, Primary) && g.LaidOut(r.sh, Secondary) && Get4(r.ph, HEADER_SIZE_OFFSET) <= g.blk
  {
    CommitResult(d, Resealed(env.crc, edited));
    ResealedLayout(env, g, edited);
    RepointKeepsSize(env.crc, edited.ph, edited.pe, Get4(edited.ph, HEADER_SIZE_OFFSET));
  }
}
