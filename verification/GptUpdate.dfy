/** prepare_partitions and the three functions under it, over a device that may fail at any read or write. */
module GptUpdate {
  import opened Bytes
  import opened GptHeader
  import opened GptEntries
  import opened GptEntryArray
  import opened FailSafe
  import opened GptBlocks
  import opened GptDevice
  import opened Twins

  type Blocks = Disk<Block, Block>
  type BlockOp = Op<Block, Block>

  /** What the code computes with: the device's CRC, the swap rule, and the codec they make up. */
  datatype Env = Env(crc: Crc, ufs: bool, switchLun: bool,
                     ghost rule: Rule<Entry, string>, ghost codec: Codec<Block, Block>)

  ghost predicate Sound(env: Env, g: Geometry) {
    && (env.switchLun ==> env.ufs)
    && Follows(env.rule, env.ufs) && Independent(env.rule, PTN_SWAP_LIST)
    && Implements(env.codec, env.crc, env.rule, g.size, g.count)
  }

  /** Every header whose CRC is good has the layout of the device. */
  ghost predicate WellLaid(env: Env, g: Geometry, d: Blocks) {
    && (env.codec.state(d.ph) != GPT_BAD_CRC ==> g.LaidOut(d.ph, Primary))
    && (env.codec.state(d.sh) != GPT_BAD_CRC ==> g.LaidOut(d.sh, Secondary))
  }

  function HeaderIn(d: Blocks, copy: Copy): Block {
    if copy == Primary then d.ph else d.sh
  }

  method HeaderOffset(dev: BlockDevice, copy: Copy) returns (off: nat)
    requires dev.Valid()
    ensures off == dev.g.Off(HeaderOf(copy))
  {
    assert dev.g.Off(HeaderOf(copy)) >= 0;
    off := if copy == Primary then dev.g.blk else dev.g.total - dev.g.blk;
  }

  /** Reads a header and judges its signature and CRC. */
  method GptGetState(env: Env, dev: BlockDevice, copy: Copy) returns (r: int, state: GptState)
    requires dev.Valid() && Sound(env, dev.g)
    modifies dev`faults
    ensures dev.faults == old(dev.faults) + if r == 0 then 0 else 1
    ensures r == 0 || r == -1
    ensures r == 0 ==> state == env.codec.state(HeaderIn(dev.Table(), copy))
  {
    state := GPT_OK;
    var header := new byte[dev.g.blk];
    var off := HeaderOffset(dev, copy);
    var rw := dev.BlkRead(off, header);
    if rw != 0 {
      return -1, state;
    }
    ghost var h := header[..];
    assert h == HeaderIn(dev.Table(), copy);
    state := JudgeHeader(env.crc, header);
    assert BlockState(env.crc, h) == state;
    return 0, state;
  }

  /** The checks of gpt_get_state on the buffer; clears the CRC field on the way. */
  method JudgeHeader(crc: Crc, header: array<byte>) returns (state: GptState)
    requires 92 <= header.Length
    modifies header
    ensures state == BlockState(crc, old(header[..]))
  {
    ghost var h := header[..];
    state := GPT_OK;
    if header[..|SIGNATURE|] != SIGNATURE {
      state := GPT_BAD_SIGNATURE;
    }
    var headerSize := Get4(header[..], HEADER_SIZE_OFFSET);
    var stored := Get4(header[..], HEADER_CRC_OFFSET);
    Put4InPlace(header, HEADER_CRC_OFFSET, 0);
    if header.Length < headerSize || crc(header[..headerSize]) != stored {
      state := GPT_BAD_CRC;
    }
    assert headerSize <= |h| ==> header[..headerSize] == Put4(h, HEADER_CRC_OFFSET, 0)[..headerSize];
    assert header.Length == |h| && h[..|SIGNATURE|] == old(header[..|SIGNATURE|]);
  }

  /** Recomputes the header CRC in place. */
  method SealInPlace(crc: Crc, header: array<byte>)
    requires IsHeader(header[..])
    modifies header
    ensures header[..] == Seal(crc, old(header[..]))
  {
    ghost var h := header[..];
    var headerSize := Get4(header[..], HEADER_SIZE_OFFSET);
    Put4InPlace(header, HEADER_CRC_OFFSET, 0);
    var sum := crc(header[..headerSize]);
    assert header[..headerSize] == Put4(h, HEADER_CRC_OFFSET, 0)[..headerSize];
    Put4InPlace(header, HEADER_CRC_OFFSET, sum);
    SameField(header[..], Seal(crc, h));
  }

  /** Corrupts or fixes the signature of one header; asking for GPT_BAD_CRC is an error. */
  method GptSetState(env: Env, dev: BlockDevice, copy: Copy, state: GptState) returns (r: int, ghost done: seq<BlockOp>)
    requires dev.Valid() && Sound(env, dev.g) && IsHeader(HeaderIn(dev.Table(), copy))
    modifies dev`faults, dev.data
    ensures r == 0 || r == -1
    ensures dev.Table() == After(old(dev.Table()), done) && SameOutside(dev.g, dev.data[..], old(dev.data[..]))
    ensures state == GPT_BAD_CRC ==> r == -1 && done == []
    ensures old(dev.faults) <= dev.faults
    ensures state != GPT_BAD_CRC ==>
      Ran(Script([PutHeader(copy, env.codec.mark(HeaderIn(old(dev.Table()), copy), state == GPT_OK))], 0),
          dev.faults > old(dev.faults), r, done)
  {
    done := [];
    var header := new byte[dev.g.blk];
    var off := HeaderOffset(dev, copy);
    r := dev.BlkRead(off, header);
    if r != 0 || state == GPT_BAD_CRC {
      return -1, done;
    }
    assert header[..] == HeaderIn(dev.Table(), copy);
    r, done := WriteMarked(env, dev, copy, off, header, state == GPT_OK);
  }

  /** The second half of gpt_set_state: edits the header just read and writes it back. */
  method WriteMarked(env: Env, dev: BlockDevice, copy: Copy, off: nat, header: array<byte>, good: bool)
    returns (r: int, ghost done: seq<BlockOp>)
    requires dev.Valid() && Sound(env, dev.g) && off == dev.g.Off(HeaderOf(copy)) && header != dev.data
    requires IsHeader(header[..]) && header[..] == HeaderIn(dev.Table(), copy)
    modifies dev`faults, dev.data, header
    ensures dev.Table() == After(old(dev.Table()), done) && SameOutside(dev.g, dev.data[..], old(dev.data[..]))
    ensures old(dev.faults) <= dev.faults
    ensures Ran(Script([PutHeader(copy, env.codec.mark(HeaderIn(old(dev.Table()), copy), good))], 0),
                dev.faults > old(dev.faults), r, done)
  {
    ghost var h := header[..];
    MarkInPlace(env.crc, header, good);
    assert header[..] == MarkBlock(env.crc, h, good);
    r, done := dev.WriteWholeRegion(HeaderOf(copy), off, header);
  }

  /** The edit gpt_set_state makes to the buffer. */
  method MarkInPlace(crc: Crc, header: array<byte>, good: bool)
    requires IsHeader(header[..])
    modifies header
    ensures header[..] == Mark(crc, old(header[..]), good)
  {
    ghost var h := header[..];
    if good {
      PutBytes(header, 0, SIGNATURE);
    } else {
      header[0] := 0;
    }
    assert header[..] == SetSignature(h, good);
    SealInPlace(crc, header);
  }

  // ------------------------------------------------------------------------
  // gpt2_set_boot_chain
  // ------------------------------------------------------------------------

  datatype BootChain = NORMAL_BOOT | BACKUP_BOOT

  /** The secondary copy rewritten around the primary's entries, swapped for the backup chain. */
  function BootChainScript(c: Codec<Block, Block>, d: Blocks, boot: BootChain): Script<Block, Block> {
    if !c.describes(d.ph, d.pe) then Script([], -1)
    else if boot == BACKUP_BOOT && !c.hasBackup(d.pe) then Script([], 1)
    else
      var a := if boot == BACKUP_BOOT then c.swap(d.pe) else d.pe;
      Script([PutHeader(Secondary, c.repoint(d.sh, a)), PutEntries(Secondary, a)], 0)
  }

  /** While no access failed a call did what its script says; otherwise it failed after a cut of the
      script's writes. */
  ghost predicate Ran(script: Script<Block, Block>, faulty: bool, r: int, done: seq<BlockOp>) {
    Interrupted(script.ops, done) && if faulty then r == -1 else r == script.rc && done == script.ops
  }

  ghost predicate Ready(env: Env, g: Geometry, d: Blocks) {
    && env.codec.state(d.ph) != GPT_BAD_CRC && env.codec.state(d.sh) != GPT_BAD_CRC
    && g.LaidOut(d.ph, Primary) && g.LaidOut(d.sh, Secondary)
  }

  lemma NoOverflow(g: Geometry)
    requires g.Valid()
    ensures g.count * g.size % 0x1_0000_0000 == g.ArraySize()
  {
    BaseIsProduct(g.count, g.size);
  }

  /** The array offset and size a header announces. */
  method ArrayBounds(g: Geometry, header: array<byte>, ghost copy: Copy) returns (off: nat, size: nat, length: nat)
    requires g.Valid() && g.LaidOut(header[..], copy)
    ensures off == g.Off(EntriesIn(copy)) && size == g.size && length == g.ArraySize()
  {
    NoOverflow(g);
    var lba := Get8(header[..], PENTRIES_OFFSET);
    BaseIsProduct(lba, g.blk);
    off := lba * g.blk % 0x1_0000_0000_0000_0000;
    size := Get4(header[..], PENTRY_SIZE_OFFSET);
    var count := Get4(header[..], PARTITION_COUNT_OFFSET);
    length := count * size % 0x1_0000_0000;
  }

  /** Rewrites the header buffer around an array. */
  method RepointInPlace(crc: Crc, header: array<byte>, pentries: array<byte>)
    requires IsHeader(header[..]) && header != pentries
    modifies header
    ensures header[..] == Repoint(crc, old(header[..]), pentries[..])
  {
    var sum := crc(pentries[..]);
    Put4InPlace(header, PARTITION_CRC_OFFSET, sum);
    SealInPlace(crc, header);
  }

  /** The array a header announces, freshly allocated. */
  method ReadArray(dev: BlockDevice, header: array<byte>, copy: Copy) returns (r: int, pentries: array<byte>, size: nat)
    requires dev.Valid() && dev.g.LaidOut(header[..], copy)
    modifies dev`faults
    ensures r == 0 || r == -1
    ensures dev.faults == old(dev.faults) + if r == 0 then 0 else 1
    ensures fresh(pentries) && size == dev.g.size
    ensures r == 0 ==> pentries[..] == if copy == Primary then dev.Table().pe else dev.Table().se
  {
    var start, length;
    start, size, length := ArrayBounds(dev.g, header, copy);
    pentries := new byte[length];
    r := dev.BlkRead(start, pentries);
  }

  /** The first half of gpt2_set_boot_chain: the primary header and entries, checked against
      the entry-array CRC. */
  method ReadPrimaryEntries(env: Env, dev: BlockDevice, header: array<byte>)
    returns (r: int, pentries: array<byte>, size: nat)
    requires dev.Valid() && Sound(env, dev.g) && Ready(env, dev.g, dev.Table())
    requires header.Length == dev.g.blk && header != dev.data
    modifies dev`faults, header
    ensures (r == 0 || r == -1) && old(dev.faults) <= dev.faults
    ensures r == 0 ==> fresh(pentries) && pentries[..] == dev.Table().pe && size == dev.g.size
    ensures r == 0 <==> dev.faults == old(dev.faults) && env.codec.describes(dev.Table().ph, dev.Table().pe)
  {
    ghost var d := dev.Table();
    size := 0;
    pentries := new byte[0];
    var off := HeaderOffset(dev, Primary);
    r := dev.BlkRead(off, header);
    if r != 0 {
      return;
    }
    assert header[..] == d.ph;
    r, pentries, size := ReadArray(dev, header, Primary);
    if r != 0 {
      return;
    }
    assert env.codec.describes(d.ph, d.pe) == DescribesBlock(env.crc, d.ph, d.pe);
    assert env.codec.state(d.ph) == BlockState(env.crc, d.ph);
    if Get4(header[..], PARTITION_CRC_OFFSET) != env.crc(pentries[..]) {
      r := -1;
    }
  }

  /** The swap, when the backup chain is asked for. */
  method ChooseChain(env: Env, g: Geometry, pentries: array<byte>, size: nat, boot: BootChain) returns (r: int)
    requires g.Valid() && Sound(env, g) && size == g.size && pentries.Length == g.ArraySize()
    modifies pentries
    ensures r == if boot == BACKUP_BOOT && !env.codec.hasBackup(old(pentries[..])) then 1 else 0
    ensures r == 0 ==>
      pentries[..] == if boot == BACKUP_BOOT then env.codec.swap(old(pentries[..])) else old(pentries[..])
  {
    ghost var was := pentries[..];
    r := 0;
    if boot == BACKUP_BOOT {
      assert env.codec.hasBackup(was) == BlockHasBackup(env.rule, g.size, g.count, was);
      assert env.codec.swap(was) == SwapBlock(env.rule, g.size, g.count, was);
      r := GptBootChainSwap(pentries, size, g.count, env.ufs, env.rule);
    }
  }

  method Gpt2SetBootChain(env: Env, dev: BlockDevice, boot: BootChain) returns (r: int, ghost done: seq<BlockOp>)
    requires dev.Valid() && Sound(env, dev.g) && Ready(env, dev.g, dev.Table())
    modifies dev`faults, dev.data
    ensures dev.Table() == After(old(dev.Table()), done) && SameOutside(dev.g, dev.data[..], old(dev.data[..]))
    ensures old(dev.faults) <= dev.faults
    ensures Ran(BootChainScript(env.codec, old(dev.Table()), boot),
                dev.faults > old(dev.faults), r, done)
  {
    done := [];
    ghost var d := dev.Table();
    var header := new byte[dev.g.blk];
    var pentries, size;
    r, pentries, size := ReadPrimaryEntries(env, dev, header);
    if r != 0 {
      assert Ran(BootChainScript(env.codec, d, boot), dev.faults > old(dev.faults), r, done);
      return;
    }
    r, done := RewriteSecondary(env, dev, header, pentries, size, boot);
  }

  /** The second half of gpt2_set_boot_chain: the entries swapped or not, and the secondary copy written. */
  method RewriteSecondary(env: Env, dev: BlockDevice, header: array<byte>, pentries: array<byte>, size: nat,
      boot: BootChain)
    returns (r: int, ghost done: seq<BlockOp>)
    requires dev.Valid() && Sound(env, dev.g) && Ready(env, dev.g, dev.Table())
    requires header.Length == dev.g.blk && size == dev.g.size && pentries[..] == dev.Table().pe
    requires header != dev.data && pentries != dev.data && header != pentries
    requires env.codec.describes(dev.Table().ph, dev.Table().pe)
    modifies dev`faults, dev.data, header, pentries
    ensures dev.Table() == After(old(dev.Table()), done) && SameOutside(dev.g, dev.data[..], old(dev.data[..]))
    ensures old(dev.faults) <= dev.faults
    ensures Ran(BootChainScript(env.codec, old(dev.Table()), boot),
                dev.faults > old(dev.faults), r, done)
  {
    done := [];
    ghost var d := dev.Table();
    var off := HeaderOffset(dev, Secondary);
    r := dev.BlkRead(off, header);
    if r != 0 {
      assert Ran(BootChainScript(env.codec, d, boot), dev.faults > old(dev.faults), r, done);
      return;
    }
    assert header[..] == d.sh;
    var backupStart, _, _ := ArrayBounds(dev.g, header, Secondary);
    r := ChooseChain(env, dev.g, pentries, size, boot);
    if r != 0 {
      assert Ran(BootChainScript(env.codec, d, boot), dev.faults > old(dev.faults), r, done);
      return;
    }
    ghost var a := pentries[..];
    RepointHeader(env, dev.g, header, pentries);
    assert header[..] == env.codec.repoint(d.sh, a);
    r, done := WriteSecondary(dev, off, header, backupStart, pentries);
  }

  method RepointHeader(env: Env, g: Geometry, header: array<byte>, pentries: array<byte>)
    requires Sound(env, g) && header != pentries
    requires env.codec.state(header[..]) != GPT_BAD_CRC
    modifies header
    ensures header[..] == env.codec.repoint(old(header[..]), pentries[..])
  {
    ghost var h, a := header[..], pentries[..];
    assert env.codec.state(h) == BlockState(env.crc, h);
    RepointInPlace(env.crc, header, pentries);
    assert env.codec.repoint(h, a) == RepointBlock(env.crc, h, a);
  }

  /** The header first, then the entries. */
  method WriteSecondary(dev: BlockDevice, headerOff: nat, header: array<byte>, start: nat, pentries: array<byte>)
    returns (r: int, ghost done: seq<BlockOp>)
    requires dev.Valid() && headerOff == dev.g.Off(HeaderOf(Secondary)) && start == dev.g.Off(EntriesIn(Secondary))
    requires header.Length == dev.g.blk && pentries.Length == dev.g.ArraySize()
    requires header != dev.data && pentries != dev.data
    modifies dev`faults, dev.data
    ensures dev.Table() == After(old(dev.Table()), done) && SameOutside(dev.g, dev.data[..], old(dev.data[..]))
    ensures old(dev.faults) <= dev.faults
    ensures Ran(Script([PutHeader(Secondary, header[..]), PutEntries(Secondary, pentries[..])], 0),
                dev.faults > old(dev.faults), r, done)
  {
    ghost var d := dev.Table();
    ghost var first: seq<BlockOp> := [PutHeader(Secondary, header[..])];
    ghost var rest: seq<BlockOp> := [PutEntries(Secondary, pentries[..])];
    assert first + rest == [PutHeader(Secondary, header[..]), PutEntries(Secondary, pentries[..])];
    r, done := dev.WriteWholeRegion(HeaderOf(Secondary), headerOff, header);
    InterruptedEarly(first, rest, done);
    if r == 0 {
      ghost var more;
      r, more := dev.WriteWholeRegion(EntriesIn(Secondary), start, pentries);
      InterruptedLate(first, rest, more);
      AfterAppend(d, first, more);
      done := first + more;
    }
  }

  // ------------------------------------------------------------------------
  // prepare_partitions
  // ------------------------------------------------------------------------

  /** The boot LUN switch of UFS devices with two xbl partitions; elsewhere nothing happens. */
  method SwitchBootLun(env: Env, dev: BlockDevice, id: nat) returns (r: int, ghost done: seq<BlockOp>)
    requires dev.Valid()
    modifies dev`lun, dev`faults
    ensures dev.Table() == After(old(dev.Table()), done) && old(dev.faults) <= dev.faults
    ensures Ran(Script(LunSwitch(env.switchLun, id), 0),
                dev.faults > old(dev.faults), r, done)
  {
    done := [];
    if !env.switchLun {
      return 0, done;
    }
    if * {
      dev.faults := dev.faults + 1;
      return -1, done;
    }
    AfterLun(dev.Table(), true, id);
    dev.lun := id;
    return 0, [SetBootLun(id)];
  }

  method RunMain(env: Env, dev: BlockDevice) returns (r: int, ghost done: seq<BlockOp>)
    requires dev.Valid() && Sound(env, dev.g) && Ready(env, dev.g, dev.Table())
    modifies dev`lun, dev`faults, dev.data
    ensures dev.Table() == After(old(dev.Table()), done) && SameOutside(dev.g, dev.data[..], old(dev.data[..]))
    ensures old(dev.faults) <= dev.faults
    ensures Ran(RunStage(env.codec, env.switchLun, old(dev.Table()), UPDATE_MAIN),
                dev.faults > old(dev.faults), r, done)
  {
    ghost var d := dev.Table();
    ghost var lun := LunSwitch<Block, Block>(env.switchLun, BOOT_LUN_B_ID);
    ghost var table := RunStage(env.codec, false, d, UPDATE_MAIN).ops;
    assert RunStage(env.codec, env.switchLun, d, UPDATE_MAIN).ops == lun + table;
    AfterLun(d, env.switchLun, BOOT_LUN_B_ID);
    r, done := SwitchBootLun(env, dev, BOOT_LUN_B_ID);
    RanInTurn(lun, table, done, []);
    if r != 0 {
      return;
    }
    ghost var more;
    r, more := RunMainTable(env, dev);
    RanInTurn(lun, table, [], more);
    AfterAppend(d, lun, more);
    done := lun + more;
  }

  /** The MAIN stage past the boot LUN: the backup chain, and then the primary header corrupted. */
  method RunMainTable(env: Env, dev: BlockDevice) returns (r: int, ghost done: seq<BlockOp>)
    requires dev.Valid() && Sound(env, dev.g) && Ready(env, dev.g, dev.Table())
    modifies dev`faults, dev.data
    ensures dev.Table() == After(old(dev.Table()), done) && SameOutside(dev.g, dev.data[..], old(dev.data[..]))
    ensures old(dev.faults) <= dev.faults
    ensures Ran(RunStage(env.codec, false, old(dev.Table()), UPDATE_MAIN),
                dev.faults > old(dev.faults), r, done)
  {
    ghost var d := dev.Table();
    r, done := Gpt2SetBootChain(env, dev, BACKUP_BOOT);
    if r != 0 {
      MainChainStopped(env.codec, d, dev.faults > old(dev.faults), r, done);
      if r > 0 {
        r := 0;
      }
      return;
    }
    ChainKeepsPrimary(env.codec, d, BACKUP_BOOT);
    assert env.codec.state(d.ph) == BlockState(env.crc, d.ph);
    ghost var more;
    r, more := GptSetState(env, dev, Primary, GPT_BAD_SIGNATURE);
    AfterAppend(d, done, more);
    MainMarkRan(env.codec, d, dev.faults > old(dev.faults), r, more);
    done := done + more;
  }

  lemma ChainKeepsPrimary(c: Codec<Block, Block>, d: Blocks, boot: BootChain)
    ensures After(d, BootChainScript(c, d, boot).ops).ph == d.ph
  {
    var ops := BootChainScript(c, d, boot).ops;
    if ops != [] {
      AfterList(d, ops[0], ops[1], ops[1]);
      assert ops == [ops[0], ops[1]];
    }
  }

  lemma MainChainStopped(c: Codec<Block, Block>, d: Blocks, faulty: bool, r: int, done: seq<BlockOp>)
    requires Ran(BootChainScript(c, d, BACKUP_BOOT), faulty, r, done) && r != 0
    ensures Ran(RunStage(c, false, d, UPDATE_MAIN), faulty, if r > 0 then 0 else r, done)
  {
    var chain := BootChainScript(c, d, BACKUP_BOOT).ops;
    var ops := RunStage(c, false, d, UPDATE_MAIN).ops;
    if chain != [] {
      assert ops == chain + [ops[2]];
      InterruptedEarly(chain, [ops[2]], done);
    }
  }

  lemma MainMarkRan(c: Codec<Block, Block>, d: Blocks, faulty: bool, r: int, more: seq<BlockOp>)
    requires BootChainScript(c, d, BACKUP_BOOT).rc == 0
    requires Ran(Script([PutHeader(Primary, c.mark(d.ph, false))], 0), faulty, r, more)
    ensures Ran(RunStage(c, false, d, UPDATE_MAIN), faulty, r, BootChainScript(c, d, BACKUP_BOOT).ops + more)
  {
    var chain := BootChainScript(c, d, BACKUP_BOOT).ops;
    var last: seq<BlockOp> := [PutHeader(Primary, c.mark(d.ph, false))];
    InterruptedLate(chain, last, more);
    assert RunStage(c, false, d, UPDATE_MAIN).ops == chain + last;
  }

  /** Two scripts run one after the other: the first was cut, or it finished and the second ran. */
  lemma RanInTurn(first: seq<BlockOp>, rest: seq<BlockOp>, done: seq<BlockOp>, more: seq<BlockOp>)
    ensures Interrupted(first, done) ==> Interrupted(first + rest, done)
    ensures Interrupted(rest, more) ==> Interrupted(first + rest, first + more)
  {
    if Interrupted(first, done) {
      InterruptedEarly(first, rest, done);
    }
    if Interrupted(rest, more) {
      InterruptedLate(first, rest, more);
    }
  }

  /** The primary header fixed, then the secondary corrupted. */
  method SwapSignatures(env: Env, dev: BlockDevice) returns (r: int, ghost done: seq<BlockOp>)
    requires dev.Valid() && Sound(env, dev.g)
    requires IsHeader(dev.Table().ph) && IsHeader(dev.Table().sh)
    modifies dev`faults, dev.data
    ensures dev.Table() == After(old(dev.Table()), done) && SameOutside(dev.g, dev.data[..], old(dev.data[..]))
    ensures Ran(Script([PutHeader(Primary, env.codec.mark(old(dev.Table()).ph, true))]
                     + [PutHeader(Secondary, env.codec.mark(old(dev.Table()).sh, false))], 0),
                dev.faults > old(dev.faults), r, done)
    ensures old(dev.faults) <= dev.faults
  {
    ghost var d := dev.Table();
    ghost var first: seq<BlockOp> := [PutHeader(Primary, env.codec.mark(d.ph, true))];
    ghost var last: seq<BlockOp> := [PutHeader(Secondary, env.codec.mark(d.sh, false))];
    r, done := GptSetState(env, dev, Primary, GPT_OK);
    RanInTurn(first, last, done, []);
    if r != 0 {
      return;
    }
    AfterList(d, first[0], first[0], first[0]);
    ghost var more;
    r, more := GptSetState(env, dev, Secondary, GPT_BAD_SIGNATURE);
    RanInTurn(first, last, [], more);
    AfterAppend(d, first, more);
    done := first + more;
  }

  method RunBackup(env: Env, dev: BlockDevice) returns (r: int, ghost done: seq<BlockOp>)
    requires dev.Valid() && Sound(env, dev.g) && Ready(env, dev.g, dev.Table())
    modifies dev`lun, dev`faults, dev.data
    ensures dev.Table() == After(old(dev.Table()), done) && SameOutside(dev.g, dev.data[..], old(dev.data[..]))
    ensures old(dev.faults) <= dev.faults
    ensures Ran(RunStage(env.codec, env.switchLun, old(dev.Table()), UPDATE_BACKUP),
                dev.faults > old(dev.faults), r, done)
  {
    ghost var d := dev.Table();
    ghost var c := env.codec;
    ghost var lun := LunSwitch<Block, Block>(env.switchLun, BOOT_LUN_A_ID);
    ghost var both: seq<BlockOp> := [PutHeader(Primary, c.mark(d.ph, true))] +
      [PutHeader(Secondary, c.mark(d.sh, false))];
    assert RunStage(c, env.switchLun, d, UPDATE_BACKUP).ops == lun + both;
    assert c.state(d.ph) == BlockState(env.crc, d.ph) && c.state(d.sh) == BlockState(env.crc, d.sh);
    AfterLun(d, env.switchLun, BOOT_LUN_A_ID);
    r, done := SwitchBootLun(env, dev, BOOT_LUN_A_ID);
    RanInTurn(lun, both, done, []);
    if r != 0 {
      return;
    }
    ghost var more;
    r, more := SwapSignatures(env, dev);
    RanInTurn(lun, both, [], more);
    AfterAppend(d, lun, more);
    done := lun + more;
  }

  lemma FinalizeStopped(c: Codec<Block, Block>, switchLun: bool, d: Blocks, faulty: bool, r: int, done: seq<BlockOp>)
    requires Ran(BootChainScript(c, d, NORMAL_BOOT), faulty, r, done) && r < 0
    ensures Ran(RunStage(c, switchLun, d, UPDATE_FINALIZE), faulty, r, done)
  {
    var ops := RunStage(c, switchLun, d, UPDATE_FINALIZE).ops;
    var chain := BootChainScript(c, d, NORMAL_BOOT).ops;
    if chain != [] {
      assert ops == chain + [ops[2]];
      InterruptedEarly(chain, [ops[2]], done);
    }
  }

  /** After the secondary was rewritten around the primary's entries, its header has its old state. */
  lemma ChainedSecondary(c: Codec<Block, Block>, d: Blocks)
    requires Laws(c) && c.state(d.sh) != GPT_BAD_CRC && BootChainScript(c, d, NORMAL_BOOT).rc == 0
    ensures var sh := After(d, BootChainScript(c, d, NORMAL_BOOT).ops).sh;
      sh == c.repoint(d.sh, d.pe) && c.state(sh) != GPT_BAD_CRC
  {
    var ops := BootChainScript(c, d, NORMAL_BOOT).ops;
    AfterList(d, ops[0], ops[1], ops[1]);
    assert ops == [ops[0], ops[1]];
  }

  lemma FinalizeMarkRan(c: Codec<Block, Block>, switchLun: bool, d: Blocks, faulty: bool, r: int, more: seq<BlockOp>)
    requires BootChainScript(c, d, NORMAL_BOOT).rc == 0
    requires Ran(Script([PutHeader(Secondary, c.mark(c.repoint(d.sh, d.pe), true))], 0), faulty, r, more)
    ensures Ran(RunStage(c, switchLun, d, UPDATE_FINALIZE), faulty, r, BootChainScript(c, d, NORMAL_BOOT).ops + more)
  {
    var chain := BootChainScript(c, d, NORMAL_BOOT).ops;
    var last: seq<BlockOp> := [PutHeader(Secondary, c.mark(c.repoint(d.sh, d.pe), true))];
    InterruptedLate(chain, last, more);
    assert RunStage(c, switchLun, d, UPDATE_FINALIZE).ops == chain + last;
  }

  method RunFinalize(env: Env, dev: BlockDevice) returns (r: int, ghost done: seq<BlockOp>)
    requires dev.Valid() && Sound(env, dev.g) && Ready(env, dev.g, dev.Table()) && Laws(env.codec)
    modifies dev`faults, dev.data
    ensures dev.Table() == After(old(dev.Table()), done) && SameOutside(dev.g, dev.data[..], old(dev.data[..]))
    ensures old(dev.faults) <= dev.faults
    ensures Ran(RunStage(env.codec, env.switchLun, old(dev.Table()), UPDATE_FINALIZE),
                dev.faults > old(dev.faults), r, done)
  {
    ghost var d := dev.Table();
    r, done := Gpt2SetBootChain(env, dev, NORMAL_BOOT);
    if r < 0 {
      FinalizeStopped(env.codec, env.switchLun, d, dev.faults > old(dev.faults), r, done);
      return;
    }
    ChainedSecondary(env.codec, d);
    assert env.codec.state(dev.Table().sh) == BlockState(env.crc, dev.Table().sh);
    ghost var more;
    r, more := GptSetState(env, dev, Secondary, GPT_OK);
    AfterAppend(d, done, more);
    FinalizeMarkRan(env.codec, env.switchLun, d, dev.faults > old(dev.faults), r, more);
    done := done + more;
  }

  /** One call: while no access fails exactly the writes and the result the two header states call for;
      otherwise a cut of those writes, at most the last of them torn, and a result that is not 0. A header
      with a bad CRC, or two bad signatures, are refused with the device untouched, fault or no fault. */
  method PreparePartitions(env: Env, dev: BlockDevice, stage: Stage) returns (r: int, ghost done: seq<BlockOp>)
    requires dev.Valid() && Sound(env, dev.g) && WellLaid(env, dev.g, dev.Table()) && Laws(env.codec)
    modifies dev`lun, dev`faults, dev.data
    ensures dev.Table() == After(old(dev.Table()), done) && SameOutside(dev.g, dev.data[..], old(dev.data[..]))
    ensures var script := Prepare(env.codec, env.switchLun, old(dev.Table()), stage);
      Interrupted(script.ops, done)
      && if dev.faults > old(dev.faults) then r == -1 || (r == 1 && done == [])
         else r == script.rc && done == script.ops
    ensures old(dev.faults) <= dev.faults
    ensures var d := old(dev.Table());
      BlockState(env.crc, d.ph) == GPT_BAD_CRC || BlockState(env.crc, d.sh) == GPT_BAD_CRC
      || (BlockState(env.crc, d.ph) == GPT_BAD_SIGNATURE && BlockState(env.crc, d.sh) == GPT_BAD_SIGNATURE) ==>
        r != 0 && dev.data[..] == old(dev.data[..]) && dev.lun == old(dev.lun)
  {
    done := [];
    var primary, secondary;
    r, primary, secondary := GptGetStates(env, dev);
    if r != 0 {
      return;
    }
    if primary == GPT_BAD_CRC || secondary == GPT_BAD_CRC {
      return -1, done;
    }
    if primary == GPT_BAD_SIGNATURE && secondary == GPT_BAD_SIGNATURE {
      return -1, done;
    }
    var internal := UPDATE_FINALIZE;
    if primary == GPT_OK && secondary == GPT_OK {
      internal := UPDATE_MAIN;
    } else if primary == GPT_BAD_SIGNATURE {
      internal := UPDATE_BACKUP;
    }
    if stage.Number() == internal.Number() - 1 {
      return 0, done;
    }
    if stage != internal {
      return -1, done;
    }
    r, done := RunExpected(env, dev, stage);
  }

  /** The two states, primary first; a failing read is answered by 1. */
  method GptGetStates(env: Env, dev: BlockDevice) returns (r: int, primary: GptState, secondary: GptState)
    requires dev.Valid() && Sound(env, dev.g)
    modifies dev`faults
    ensures old(dev.faults) <= dev.faults && r == if dev.faults > old(dev.faults) then 1 else 0
    ensures r == 0 ==> primary == env.codec.state(dev.Table().ph) == BlockState(env.crc, dev.Table().ph)
    ensures r == 0 ==> secondary == env.codec.state(dev.Table().sh) == BlockState(env.crc, dev.Table().sh)
  {
    secondary := GPT_OK;
    r, primary := GptGetState(env, dev, Primary);
    if r == 0 {
      r, secondary := GptGetState(env, dev, Secondary);
    }
    r := if r == 0 then 0 else 1;
    assert env.codec.state(dev.Table().ph) == BlockState(env.crc, dev.Table().ph);
    assert env.codec.state(dev.Table().sh) == BlockState(env.crc, dev.Table().sh);
  }

  /** The switch over the stages, once the stage asked for is the one the headers call for. */
  method RunExpected(env: Env, dev: BlockDevice, stage: Stage) returns (r: int, ghost done: seq<BlockOp>)
    requires dev.Valid() && Sound(env, dev.g) && Ready(env, dev.g, dev.Table()) && Laws(env.codec)
    modifies dev`lun, dev`faults, dev.data
    ensures dev.Table() == After(old(dev.Table()), done) && SameOutside(dev.g, dev.data[..], old(dev.data[..]))
    ensures old(dev.faults) <= dev.faults
    ensures Ran(RunStage(env.codec, env.switchLun, old(dev.Table()), stage), dev.faults > old(dev.faults), r, done)
  {
    match stage
    case UPDATE_MAIN => r, done := RunMain(env, dev);
    case UPDATE_BACKUP => r, done := RunBackup(env, dev);
    case UPDATE_FINALIZE => r, done := RunFinalize(env, dev);
  }
}
