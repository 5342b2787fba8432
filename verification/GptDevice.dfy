/** A block device holding two copies of a GPT: where the four regions lie, and how a
    read or write of a region may fail. */
module GptDevice {
  import opened Bytes
  import opened GptHeader
  import opened GptEntries
  import opened GptEntryArray
  import opened FailSafe

  datatype Region = HeaderOf(copy: Copy) | EntriesIn(copy: Copy)

  /** A block address as a byte offset, in 64-bit arithmetic. */
  function ByteOffset(lba: nat, blk: nat): nat {
    Base(lba, blk) % 0x1_0000_0000_0000_0000
  }

  /** Block and device size, where the two entry arrays start, and their shape. */
  datatype Geometry = Geometry(blk: nat, total: nat, start: nat, backupStart: nat, count: nat, size: nat) {

    function ArraySize(): nat {
      Base(count, size)
    }

    function Off(r: Region): int {
      match r
      case HeaderOf(Primary) => blk
      case HeaderOf(Secondary) => total - blk
      case EntriesIn(Primary) => start
      case EntriesIn(Secondary) => backupStart
    }

    function Len(r: Region): nat {
      if r.HeaderOf? then blk else ArraySize()
    }

    predicate Disjoint(r: Region, s: Region) {
      Off(r) + Len(r) <= Off(s) || Off(s) + Len(s) <= Off(r)
    }

    /** Four disjoint regions inside the device; entries of at least 128 bytes; the array size
        fits the 32-bit product the code computes. */
    ghost predicate Valid() {
      && 92 <= blk && PTN_ENTRY_SIZE <= size && ArraySize() < 0x1_0000_0000
      && (forall r :: 0 <= Off(r) && Off(r) + Len(r) <= total)
      && (forall r, s :: r != s ==> Disjoint(r, s))
    }

    /** A header whose fields say where this geometry puts its array. */
    predicate LaidOut(h: seq<byte>, copy: Copy) {
      && |h| == blk && 92 <= blk
      && ByteOffset(Get8(h, PENTRIES_OFFSET), blk) == Off(EntriesIn(copy))
      && Get4(h, PARTITION_COUNT_OFFSET) == count && Get4(h, PENTRY_SIZE_OFFSET) == size
    }

    function Slice(data: seq<byte>, r: Region): seq<byte>
      requires |data| == total && 0 <= Off(r) && Off(r) + Len(r) <= total
    {
      data[Off(r)..Off(r) + Len(r)]
    }
  }

  /** The write of a region, as an operation of the protocol. */
  function Put(r: Region, bytes: seq<byte>): Op<seq<byte>, seq<byte>> {
    match r
    case HeaderOf(copy) => PutHeader(copy, bytes)
    case EntriesIn(copy) => PutEntries(copy, bytes)
  }

  /** The four regions of a device image. */
  ghost function View(g: Geometry, data: seq<byte>, lun: nat): Disk<seq<byte>, seq<byte>>
    requires g.Valid() && |data| == g.total
  {
    Disk(g.Slice(data, HeaderOf(Primary)), g.Slice(data, EntriesIn(Primary)),
         g.Slice(data, HeaderOf(Secondary)), g.Slice(data, EntriesIn(Secondary)), lun)
  }

  /** The header blocks are the second and the last of the device, whatever else is where. */
  lemma WhereRegionsLie(g: Geometry, data: seq<byte>, lun: nat)
    requires g.Valid() && |data| == g.total
    ensures var d := View(g, data, lun);
      && 2 * g.blk <= g.total && d.ph == data[g.blk..2 * g.blk] && d.sh == data[g.total - g.blk..]
      && g.start + g.ArraySize() <= g.total && d.pe == data[g.start..g.start + g.ArraySize()]
      && g.backupStart + g.ArraySize() <= g.total && d.se == data[g.backupStart..g.backupStart + g.ArraySize()]
  {
    assert g.Off(HeaderOf(Primary)) + g.Len(HeaderOf(Primary)) <= g.total;
    assert g.Off(HeaderOf(Secondary)) >= 0;
    assert g.Off(EntriesIn(Primary)) + g.Len(EntriesIn(Primary)) <= g.total;
    assert g.Off(EntriesIn(Secondary)) + g.Len(EntriesIn(Secondary)) <= g.total;
  }

  ghost predicate Inside(g: Geometry, i: int) {
    exists r :: g.Off(r) <= i < g.Off(r) + g.Len(r)
  }

  /** Two images agree outside the four regions. */
  ghost predicate SameOutside(g: Geometry, a: seq<byte>, b: seq<byte>) {
    |a| == |b| && forall i :: 0 <= i < |a| && !Inside(g, i) ==> a[i] == b[i]
  }

  lemma SpliceSlice(g: Geometry, data: seq<byte>, r: Region, bytes: seq<byte>, s: Region)
    requires g.Valid() && |data| == g.total && |bytes| == g.Len(r)
    ensures g.Slice(Splice(data, g.Off(r), bytes), s) == if s == r then bytes else g.Slice(data, s)
  {
    assert s != r ==> g.Disjoint(r, s);
  }

  /** Writing a region changes that region of the view and nothing outside it. */
  lemma WriteRegion(g: Geometry, data: seq<byte>, lun: nat, r: Region, bytes: seq<byte>)
    requires g.Valid() && |data| == g.total && |bytes| == g.Len(r)
    ensures View(g, Splice(data, g.Off(r), bytes), lun) == Apply(View(g, data, lun), Put(r, bytes))
    ensures SameOutside(g, Splice(data, g.Off(r), bytes), data)
  {
    forall s
      ensures g.Slice(Splice(data, g.Off(r), bytes), s) == if s == r then bytes else g.Slice(data, s)
    {
      SpliceSlice(g, data, r, bytes, s);
    }
    forall i | 0 <= i < |data| && !Inside(g, i)
      ensures Splice(data, g.Off(r), bytes)[i] == data[i]
    {
    }
  }

  /** The regions and the rest are all there is. */
  lemma SameImage(g: Geometry, a: seq<byte>, b: seq<byte>, lun: nat)
    requires g.Valid() && |a| == |b| == g.total
    requires View(g, a, lun) == View(g, b, lun) && SameOutside(g, a, b)
    ensures a == b
  {
    forall i | 0 <= i < |a|
      ensures a[i] == b[i]
    {
      if Inside(g, i) {
        var r :| g.Off(r) <= i < g.Off(r) + g.Len(r);
        assert g.Slice(a, r) == g.Slice(b, r);
        assert a[i] == g.Slice(a, r)[i - g.Off(r)];
        assert b[i] == g.Slice(b, r)[i - g.Off(r)];
      }
    }
  }

  class BlockDevice {
    const g: Geometry
    const data: array<byte>
    var lun: nat
    /** How many accesses have failed so far. */
    ghost var faults: nat

    constructor (g: Geometry, data: array<byte>)
      requires g.Valid() && data.Length == g.total
      ensures this.g == g && this.data == data && Valid()
    {
      this.g, this.data, this.lun := g, data, BOOT_LUN_A_ID;
      faults := 0;
    }

    ghost predicate Valid() {
      g.Valid() && data.Length == g.total
    }

    ghost function Table(): Disk<seq<byte>, seq<byte>>
      requires Valid()
      reads this`lun, data
    {
      View(g, data[..], lun)
    }

    /** blk_rw for reading: the device may refuse. */
    method BlkRead(off: nat, buf: array<byte>) returns (r: int)
      requires off + buf.Length <= data.Length && buf != data
      modifies this`faults, buf
      ensures r == 0 || r == -1
      ensures faults == old(faults) + if r == 0 then 0 else 1
      ensures r == 0 ==> buf[..] == data[off..off + buf.Length]
    {
      if * {
        faults := faults + 1;
        return -1;
      }
      Memcpy(buf, 0, data, off, buf.Length);
      return 0;
    }

    /** blk_rw for writing. When it fails the stretch may hold anything: the old bytes, the
        new ones, or a torn mixture. */
    method BlkWrite(off: nat, buf: array<byte>) returns (r: int, ghost written: seq<byte>)
      requires off + buf.Length <= data.Length && buf != data
      modifies this`faults, data
      ensures r == 0 || r == -1
      ensures faults == old(faults) + if r == 0 then 0 else 1
      ensures |written| == buf.Length && data[..] == Splice(old(data[..]), off, written)
      ensures r == 0 ==> written == buf[..]
    {
      if * {
        Memcpy(data, off, buf, 0, buf.Length);
        return 0, buf[..];
      }
      var torn := new byte[buf.Length];
      for i := 0 to buf.Length
        invariant data[..] == old(data[..]) && faults == old(faults)
      {
        torn[i] := *;
      }
      Memcpy(data, off, torn, 0, torn.Length);
      faults := faults + 1;
      return -1, torn[..];
    }

    /** Writes a whole region; what reached the disk is one write of the protocol. */
    method WriteWholeRegion(region: Region, off: nat, buf: array<byte>)
      returns (r: int, ghost done: seq<Op<seq<byte>, seq<byte>>>)
      requires Valid() && off == g.Off(region) && buf.Length == g.Len(region) && buf != data
      modifies this`faults, data
      ensures r == 0 || r == -1
      ensures faults == old(faults) + if r == 0 then 0 else 1
      ensures Table() == After(old(Table()), done) && SameOutside(g, data[..], old(data[..]))
      ensures Interrupted([Put(region, buf[..])], done)
      ensures r == 0 ==> done == [Put(region, buf[..])]
    {
      ghost var was := data[..];
      ghost var written;
      r, written := BlkWrite(off, buf);
      WriteRegion(g, was, lun, region, written);
      done := [Put(region, written)];
      AfterList(View(g, was, lun), Put(region, written), Put(region, written), Put(region, written));
    }
  }
}
