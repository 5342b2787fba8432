/** Byte blocks as headers and entry arrays of the fail-safe protocol. */
module GptBlocks {
  import opened Bytes
  import opened GptHeader
  import opened GptEntries
  import opened GptEntryArray
  import opened FailSafe
  import opened Twins

  type Block = seq<byte>

  /** gpt_get_state on any block. A size field beyond the block would make crc32 read past
      the buffer; no claim is made about that, and such a block counts as corrupted. */
  function BlockState(crc: Crc, h: Block): GptState {
    if IsHeader(h) then StateOf(crc, h) else GPT_BAD_CRC
  }

  function MarkBlock(crc: Crc, h: Block, good: bool): Block {
    if IsHeader(h) then Mark(crc, h, good) else h
  }

  function RepointBlock(crc: Crc, h: Block, entries: Block): Block {
    if IsHeader(h) then Repoint(crc, h, entries) else h
  }

  predicate DescribesBlock(crc: Crc, h: Block, entries: Block) {
    IsHeader(h) && Get4(h, PARTITION_CRC_OFFSET) == crc(entries)
  }

  function SwapBlock(rule: Rule<Entry, string>, size: nat, n: nat, entries: Block): Block {
    if Strided(|entries|, size, n) then SwapChainBytes(rule, entries, size, n, PTN_SWAP_LIST) else entries
  }

  predicate BlockHasBackup(rule: Rule<Entry, string>, size: nat, n: nat, entries: Block) {
    Strided(|entries|, size, n) && HasBackup(rule, EntriesOf(entries, size, n), PTN_SWAP_LIST)
  }

  /** The codec of gpt-utils, for arrays of n entries of size bytes. */
  function GptCodec(crc: Crc, rule: Rule<Entry, string>, size: nat, n: nat): Codec<Block, Block> {
    Codec(
      h => BlockState(crc, h),
      (h, good) => MarkBlock(crc, h, good),
      (h, a) => RepointBlock(crc, h, a),
      (h, a) => DescribesBlock(crc, h, a),
      a => SwapBlock(rule, size, n, a),
      a => BlockHasBackup(rule, size, n, a))
  }

  /** A codec that does what gpt-utils does. */
  ghost predicate Implements(c: Codec<Block, Block>, crc: Crc, rule: Rule<Entry, string>, size: nat, n: nat) {
    && (forall h {:trigger BlockState(crc, h)} :: c.state(h) == BlockState(crc, h))
    && (forall h, good {:trigger MarkBlock(crc, h, good)} :: c.mark(h, good) == MarkBlock(crc, h, good))
    && (forall h, a {:trigger RepointBlock(crc, h, a)} :: c.repoint(h, a) == RepointBlock(crc, h, a))
    && (forall h, a {:trigger DescribesBlock(crc, h, a)} :: c.describes(h, a) == DescribesBlock(crc, h, a))
    && (forall a {:trigger SwapBlock(rule, size, n, a)} :: c.swap(a) == SwapBlock(rule, size, n, a))
    && (forall a {:trigger BlockHasBackup(rule, size, n, a)} :: c.hasBackup(a) == BlockHasBackup(rule, size, n, a))
  }

  lemma CodecImplements(crc: Crc, rule: Rule<Entry, string>, size: nat, n: nat)
    ensures Implements(GptCodec(crc, rule, size, n), crc, rule, size, n)
  {
  }

  lemma MarkObeys(c: Codec<Block, Block>, crc: Crc, rule: Rule<Entry, string>, size: nat, n: nat, h: Block, good: bool,
                  a: Block)
    requires Implements(c, crc, rule, size, n) && c.state(h) != GPT_BAD_CRC
    ensures c.state(c.mark(h, good)) == if good then GPT_OK else GPT_BAD_SIGNATURE
    ensures c.describes(c.mark(h, good), a) == c.describes(h, a)
  {
    assert c.state(h) == BlockState(crc, h) && c.mark(h, good) == MarkBlock(crc, h, good) == Mark(crc, h, good);
    MarkedState(crc, h, good);
    assert BlockState(crc, MarkBlock(crc, h, good)) == StateOf(crc, Mark(crc, h, good));
    Get4Frame(Mark(crc, h, good), h, PARTITION_CRC_OFFSET);
    assert DescribesBlock(crc, MarkBlock(crc, h, good), a) == DescribesBlock(crc, h, a);
  }

  lemma MarkLawHolds(c: Codec<Block, Block>, crc: Crc, rule: Rule<Entry, string>, size: nat, n: nat)
    requires Implements(c, crc, rule, size, n)
    ensures MarkLaw(c)
  {
    forall h, good | c.state(h) != GPT_BAD_CRC
      ensures c.state(c.mark(h, good)) == if good then GPT_OK else GPT_BAD_SIGNATURE
      ensures forall a :: c.describes(c.mark(h, good), a) == c.describes(h, a)
    {
      MarkObeys(c, crc, rule, size, n, h, good, h);
      forall a
        ensures c.describes(c.mark(h, good), a) == c.describes(h, a)
      {
        MarkObeys(c, crc, rule, size, n, h, good, a);
      }
    }
  }

  lemma MarkTwiceObeys(c: Codec<Block, Block>, crc: Crc, rule: Rule<Entry, string>, size: nat, n: nat, h: Block)
    requires Implements(c, crc, rule, size, n) && c.state(h) == GPT_OK
    ensures c.mark(c.mark(h, false), true) == h
  {
    assert c.state(h) == BlockState(crc, h);
    MarkRoundTrip(crc, h);
    assert MarkBlock(crc, MarkBlock(crc, h, false), true) == Mark(crc, Mark(crc, h, false), true);
  }

  lemma RepointObeys(c: Codec<Block, Block>, crc: Crc, rule: Rule<Entry, string>, size: nat, n: nat, h: Block, a: Block)
    requires Implements(c, crc, rule, size, n) && c.state(h) != GPT_BAD_CRC
    ensures c.describes(c.repoint(h, a), a)
    ensures c.state(c.repoint(h, a)) == c.state(h)
    ensures c.state(h) == GPT_OK && c.describes(h, a) ==> c.repoint(h, a) == h
  {
    assert c.state(h) == BlockState(crc, h) && c.repoint(h, a) == RepointBlock(crc, h, a) == Repoint(crc, h, a);
    RepointedState(crc, h, a);
    assert BlockState(crc, RepointBlock(crc, h, a)) == StateOf(crc, Repoint(crc, h, a));
    assert DescribesBlock(crc, RepointBlock(crc, h, a), a);
    assert c.describes(h, a) == DescribesBlock(crc, h, a);
    if c.state(h) == GPT_OK && c.describes(h, a) {
      RepointFixpoint(crc, h, a);
    }
  }

  lemma CycleObeys(c: Codec<Block, Block>, crc: Crc, rule: Rule<Entry, string>, size: nat, n: nat, h: Block, a: Block,
                   b: Block)
    requires Implements(c, crc, rule, size, n) && c.state(h) == GPT_OK
    ensures c.mark(c.repoint(c.mark(c.repoint(h, a), false), b), true) == c.repoint(h, b)
  {
    assert c.state(h) == BlockState(crc, h);
    SecondaryRoundTrip(crc, h, a, b);
    assert c.repoint(h, a) == RepointBlock(crc, h, a) == Repoint(crc, h, a);
    assert c.repoint(h, b) == RepointBlock(crc, h, b) == Repoint(crc, h, b);
    var h1 := MarkBlock(crc, Repoint(crc, h, a), false);
    var h2 := RepointBlock(crc, h1, b);
    assert h1 == Mark(crc, Repoint(crc, h, a), false) && h2 == Repoint(crc, h1, b);
    assert MarkBlock(crc, h2, true) == Mark(crc, h2, true);
  }

  /** GPT blocks obey the laws of the protocol, whatever function crc32 is. */
  lemma GptObeysLaws(c: Codec<Block, Block>, crc: Crc, rule: Rule<Entry, string>, size: nat, n: nat)
    requires Implements(c, crc, rule, size, n)
    ensures Laws(c)
  {
    MarkLawHolds(c, crc, rule, size, n);
    assert MarkTwiceLaw(c) by {
      forall h | c.state(h) == GPT_OK
        ensures c.mark(c.mark(h, false), true) == h
      {
        MarkTwiceObeys(c, crc, rule, size, n, h);
      }
    }
    assert RepointLaw(c) by {
      forall h, a | c.state(h) != GPT_BAD_CRC
        ensures c.describes(c.repoint(h, a), a) && c.state(c.repoint(h, a)) == c.state(h)
        ensures c.state(h) == GPT_OK && c.describes(h, a) ==> c.repoint(h, a) == h
      {
        RepointObeys(c, crc, rule, size, n, h, a);
      }
    }
    assert CycleLaw(c) by {
      forall h, a, b | c.state(h) == GPT_OK
        ensures c.mark(c.repoint(c.mark(c.repoint(h, a), false), b), true) == c.repoint(h, b)
      {
        CycleObeys(c, crc, rule, size, n, h, a, b);
      }
    }
  }
}
