/** Repeated calls of prepare_partitions on a device that may fail or tear at any access. */
module GptRuns {
  import opened GptHeader
  import opened FailSafe
  import opened GptBlocks
  import opened GptDevice
  import opened GptUpdate
  import opened GptTheorems

  type BlockCall = Call<Block, Block>

  /** A header block as it lies on the device. */
  method HeaderBlock(dev: BlockDevice, copy: Copy) returns (h: Block)
    requires dev.Valid()
    ensures h == HeaderIn(dev.Table(), copy)
  {
    var off := HeaderOffset(dev, copy);
    h := dev.data[off..off + dev.g.blk];
  }

  /** Whether prepare_partitions may be called on the device again: every header whose CRC is good lies as
      the device does, and a primary header with a bad signature carries its array's CRC. */
  method MayRerun(env: Env, dev: BlockDevice) returns (ok: bool)
    requires dev.Valid() && Sound(env, dev.g)
    ensures ok <==> WellLaid(env, dev.g, dev.Table()) && Rerunnable(env.codec, dev.Table())
  {
    var ph := HeaderBlock(dev, Primary);
    var sh := HeaderBlock(dev, Secondary);
    var pe := dev.data[dev.g.start..dev.g.start + dev.g.ArraySize()];
    assert pe == dev.Table().pe;
    assert env.codec.state(ph) == BlockState(env.crc, ph) && env.codec.state(sh) == BlockState(env.crc, sh);
    assert env.codec.describes(ph, pe) == DescribesBlock(env.crc, ph, pe);
    ok := (BlockState(env.crc, ph) == GPT_BAD_CRC || dev.g.LaidOut(ph, Primary))
       && (BlockState(env.crc, sh) == GPT_BAD_CRC || dev.g.LaidOut(sh, Secondary))
       && (BlockState(env.crc, ph) != GPT_BAD_SIGNATURE || DescribesBlock(env.crc, ph, pe));
  }

  /** Stages asked for in turn, each call failing or tearing wherever the device does, for as long as the
      disk may be rerun. What reached the device is a run of the protocol, a complete copy is on it at
      every write boundary, whatever the last write left, and the run ends early only on a disk that may not
      be rerun: never when every call was cut after a write or visibly torn, nor without a fault. */
  method CallRepeatedly(env: Env, dev: BlockDevice, stages: seq<Stage>) returns (ghost calls: seq<BlockCall>)
    requires dev.Valid() && Sound(env, dev.g)
    requires BothComplete(env, dev.Table()) && WellLaid(env, dev.g, dev.Table())
    modifies dev`lun, dev`faults, dev.data
    ensures Made(env.codec, env.switchLun, old(dev.Table()), dev.Table(), calls, stages, dev.faults > old(dev.faults))
    ensures old(dev.faults) <= dev.faults && SameOutside(dev.g, dev.data[..], old(dev.data[..]))
    ensures AlwaysOneComplete(env.codec, old(dev.Table()), calls)
    ensures |calls| < |stages| ==> !(WellLaid(env, dev.g, dev.Table()) && Rerunnable(env.codec, dev.Table()))
    ensures CleanRun(env.codec, env.switchLun, old(dev.Table()), calls) ==> |calls| == |stages|
    ensures dev.faults == old(dev.faults) ==>
      dev.Table() == FaultFreeRun(env.codec, env.switchLun, old(dev.Table()), stages)
  {
    ghost var d := dev.Table();
    calls := [];
    var i := 0;
    var ok := MayRerun(env, dev);
    while ok && i < |stages|
      invariant |calls| == i <= |stages|
      invariant Made(env.codec, env.switchLun, d, dev.Table(), calls, stages, dev.faults > old(dev.faults))
      invariant old(dev.faults) <= dev.faults && SameOutside(dev.g, dev.data[..], old(dev.data[..]))
      invariant ok <==> WellLaid(env, dev.g, dev.Table()) && Rerunnable(env.codec, dev.Table())
    {
      calls := CallNext(env, dev, d, calls, stages, stages[i], old(dev.faults));
      i := i + 1;
      ok := MayRerun(env, dev);
    }
    RunMade(env, dev.g, d, dev.Table(), calls, stages, dev.faults > old(dev.faults));
  }

  /** The next of the calls. */
  method CallNext(env: Env, dev: BlockDevice, ghost d: Blocks, ghost calls: seq<BlockCall>, ghost stages: seq<Stage>,
      stage: Stage, ghost start: nat) returns (ghost more: seq<BlockCall>)
    requires dev.Valid() && Sound(env, dev.g) && WellLaid(env, dev.g, dev.Table())
    requires Rerunnable(env.codec, dev.Table()) && start <= dev.faults
    requires |calls| < |stages| && stage == stages[|calls|]
    requires Made(env.codec, env.switchLun, d, dev.Table(), calls, stages, dev.faults > start)
    modifies dev`lun, dev`faults, dev.data
    ensures Made(env.codec, env.switchLun, d, dev.Table(), more, stages, dev.faults > start) && |more| == |calls| + 1
    ensures old(dev.faults) <= dev.faults && SameOutside(dev.g, dev.data[..], old(dev.data[..]))
  {
    CodecIsLawful(env, dev.g);
    ghost var done;
    var rc;
    rc, done := PreparePartitions(env, dev, stage);
    more := calls + [Call(stage, done)];
    CallMade(env.codec, env.switchLun, d, calls, Call(stage, done), stages,
             old(dev.faults) > start, dev.faults > start);
  }

  /** A run of the protocol keeps a complete copy throughout, and may go on while it is clean. */
  lemma RunMade(env: Env, g: Geometry, d: Blocks, t: Blocks, calls: seq<BlockCall>, stages: seq<Stage>, faulty: bool)
    requires Sound(env, g) && BothComplete(env, d) && WellLaid(env, g, d)
    requires Made(env.codec, env.switchLun, d, t, calls, stages, faulty)
    ensures AlwaysOneComplete(env.codec, d, calls)
    ensures CleanRun(env.codec, env.switchLun, d, calls) ==> WellLaid(env, g, t) && Rerunnable(env.codec, t)
    ensures !faulty && |calls| == |stages| ==> t == FaultFreeRun(env.codec, env.switchLun, d, stages)
  {
    CodecIsLawful(env, g);
    CompleteInBytes(env, g, d.ph, d.pe);
    CrashSafety(env.codec, env.switchLun, d, calls);
    if CleanRun(env.codec, env.switchLun, d, calls) {
      CleanRunReady(env, g, d, calls);
      CleanRunIsPossible(env.codec, env.switchLun, d, calls);
    }
    assert stages[..|stages|] == stages;
  }
}
