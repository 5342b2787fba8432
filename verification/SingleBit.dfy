/** The single-bit test of the offload codec validators, and what the configurations it accepts select. */
module SingleBit {
  import opened Bytes
  import opened Collections

  // ------------------------------------------------------------------------
  // Words as bits
  // ------------------------------------------------------------------------

  /** The bitwise and of two words. */
  function And(x: nat, y: nat): (r: nat)
    ensures r <= x && r <= y
  {
    if x == 0 || y == 0 then 0
    else 2 * And(x / 2, y / 2) + if x % 2 == 1 && y % 2 == 1 then 1 else 0
  }

  function Pow2(k: nat): (p: nat)
    ensures p > 0
  {
    if k == 0 then 1 else 2 * Pow2(k - 1)
  }

  predicate Bit(x: nat, k: nat) {
    if k == 0 then x % 2 == 1 else Bit(x / 2, k - 1)
  }

  function BitsOf(x: nat): nat -> bool {
    (k: nat) => Bit(x, k)
  }

  ghost predicate IsOnly(bit: nat -> bool, n: nat, k: nat) {
    k < n && forall j: nat :: j < n ==> (bit(j) <==> j == k)
  }

  /** There is one place, and only one, where a bit is set. */
  ghost predicate ExactlyOne(bit: nat -> bool, n: nat) {
    exists k: nat :: IsOnly(bit, n, k)
  }

  lemma {:induction false} Pow2Grows(k: nat, n: nat)
    requires k <= n
    ensures Pow2(k) <= Pow2(n)
    ensures k < n ==> 2 * Pow2(k) <= Pow2(n)
    decreases n
  {
    if k < n {
      Pow2Grows(k, n - 1);
    }
  }

  lemma {:induction false} Pow2Four(k: nat)
    ensures Pow2(k + 4) == 0x10 * Pow2(k)
  {
    assert Pow2(k + 2) == 2 * Pow2(k + 1);
    assert Pow2(k + 3) == 2 * Pow2(k + 2);
  }

  lemma {:induction false} Pow2Top()
    ensures Pow2(31) == 0x8000_0000 && Pow2(32) == 0x1_0000_0000
  {
    Pow2Four(0);
    Pow2Four(4);
    Pow2Four(8);
    Pow2Four(12);
    Pow2Four(16);
    Pow2Four(20);
    Pow2Four(24);
    Pow2Four(28);
    assert Pow2(32) == 2 * Pow2(31);
  }

  /** Of the 32 test bits only the last is the highest of a word. */
  lemma {:induction false} LastBit(k: nat)
    requires k < 32
    ensures Pow2(k) <= 0x8000_0000
    ensures Pow2(k) == 0x8000_0000 <==> k == 31
  {
    Pow2Top();
    Pow2Grows(k, 31);
  }

  lemma {:induction false} NoBitAbove(x: nat, k: nat, j: nat)
    requires x < Pow2(k) && k <= j
    ensures !Bit(x, j)
    decreases j
  {
    if j > 0 {
      NoBitAbove(x / 2, if k > 0 then k - 1 else 0, j - 1);
    }
  }

  /** A word is zero when none of its bits is set. */
  lemma {:induction false} NoBits(x: nat, n: nat)
    requires x < Pow2(n) && forall k: nat :: k < n ==> !Bit(x, k)
    ensures x == 0
  {
    if n > 0 {
      forall k: nat | k < n - 1
        ensures !Bit(x / 2, k)
      {
        assert !Bit(x, k + 1);
      }
      NoBits(x / 2, n - 1);
      assert !Bit(x, 0);
    }
  }

  lemma {:induction false} ZeroHasNone(k: nat)
    ensures !Bit(0, k)
  {
    if k > 0 {
      ZeroHasNone(k - 1);
    }
  }

  lemma {:induction false} AndHalves(x: nat, y: nat)
    ensures And(x, y) / 2 == And(x / 2, y / 2)
    ensures And(x, y) % 2 == 1 <==> x % 2 == 1 && y % 2 == 1
  {
  }

  /** The and of two words has the bits that both have. */
  lemma {:induction false} AndBit(x: nat, y: nat, k: nat)
    ensures Bit(And(x, y), k) <==> Bit(x, k) && Bit(y, k)
  {
    AndHalves(x, y);
    if k > 0 {
      AndBit(x / 2, y / 2, k - 1);
    }
  }

  /** Testing with a single bit. */
  lemma {:induction false} AndTestBit(x: nat, k: nat)
    ensures And(x, Pow2(k)) != 0 <==> Bit(x, k)
  {
    AndHalves(x, Pow2(k));
    if k == 0 {
      assert And(x / 2, 0) == 0;
    } else {
      AndTestBit(x / 2, k - 1);
    }
  }

  // ------------------------------------------------------------------------
  // Counting
  // ------------------------------------------------------------------------

  /** How many of the first n bits are set. */
  function CountTo(bit: nat -> bool, n: nat): nat {
    if n == 0 then 0 else CountTo(bit, n - 1) + if bit(n - 1) then 1 else 0
  }

  lemma {:induction false} CountGrows(bit: nat -> bool, m: nat, n: nat)
    requires m <= n
    ensures CountTo(bit, m) <= CountTo(bit, n)
    ensures (forall k: nat :: m <= k < n ==> !bit(k)) ==> CountTo(bit, m) == CountTo(bit, n)
    decreases n
  {
    if m < n {
      CountGrows(bit, m, n - 1);
    }
  }

  lemma {:induction false} CountNone(bit: nat -> bool, n: nat)
    ensures CountTo(bit, n) == 0 <==> forall k: nat :: k < n ==> !bit(k)
  {
    if n > 0 {
      CountNone(bit, n - 1);
    }
  }

  lemma {:induction false} CountOne(bit: nat -> bool, n: nat)
    ensures CountTo(bit, n) == 1 <==> ExactlyOne(bit, n)
  {
    if n > 0 {
      CountNone(bit, n - 1);
      CountOne(bit, n - 1);
      if bit(n - 1) && CountTo(bit, n - 1) == 0 {
        assert IsOnly(bit, n, n - 1);
      }
      if !bit(n - 1) && ExactlyOne(bit, n - 1) {
        var k: nat :| IsOnly(bit, n - 1, k);
        assert IsOnly(bit, n, k);
      }
      if ExactlyOne(bit, n) {
        var k: nat :| IsOnly(bit, n, k);
        assert k < n - 1 ==> IsOnly(bit, n - 1, k);
      }
    }
  }

  /** Nothing of a word is left from a bit on that is greater than it. */
  lemma {:induction false} NothingAbove(x: nat, k: nat)
    requires k < 32 && x < Pow2(k)
    ensures CountTo(BitsOf(x), k) == CountTo(BitsOf(x), 32)
  {
    var bit := BitsOf(x);
    forall j: nat | k <= j < 32
      ensures !bit(j)
    {
      NoBitAbove(x, k, j);
    }
    CountGrows(bit, k, 32);
  }

  /** A test bit is in both operands exactly when it is in their intersection. */
  lemma {:induction false} TestBitCommon(m: nat, f: nat, k: nat)
    ensures And(f, Pow2(k)) != 0 && And(m, Pow2(k)) != 0 <==> BitsOf(And(m, f))(k)
  {
    AndTestBit(f, k);
    AndTestBit(m, k);
    AndBit(m, f, k);
  }

  /** The loop stops at the smaller operand. It always ends, and accepts exactly one common bit. */
  method IsSingleBit(bitmasks: uint32, bitfield: uint32) returns (r: bool)
    ensures r <==> ExactlyOne(BitsOf(And(bitmasks, bitfield)), 32)
  {
    ghost var bit, k := BitsOf(And(bitmasks, bitfield)), 0;
    CountOne(bit, 32);
    var single := false;
    var test: uint32 := 0x00000001;
    while test <= bitmasks && test <= bitfield
      invariant k < 32 && test == Pow2(k)
      invariant CountTo(bit, k) == if single then 1 else 0
      decreases 32 - k
    {
      LastBit(k);
      TestBitCommon(bitmasks, bitfield, k);
      CountGrows(bit, k + 1, 32);
      if And(bitfield, test) != 0 && And(bitmasks, test) != 0 {
        if single {
          return false;
        }
        single := true;
      }
      if test == 0x80000000 {
        return single;
      }
      test := test * 2;
      k := k + 1;
    }
    NothingAbove(And(bitmasks, bitfield), k);
    return single;
  }

  // ------------------------------------------------------------------------
  // The validators
  // ------------------------------------------------------------------------

  /** A field selects exactly one value of its mask, and one that the capability has. */
  ghost predicate Selects(field: uint32, mask: uint32, capability: uint32) {
    exists k: nat :: IsOnly(BitsOf(And(field, mask)), 32, k) && Bit(capability, k)
  }

  predicate Inside(capability: uint32, mask: uint32) {
    And(capability, mask) == capability
  }

  /** Two words overlap exactly when they share a bit. */
  lemma {:induction false} Overlap(a: uint32, b: uint32)
    ensures And(a, b) != 0 <==> exists k: nat :: k < 32 && Bit(a, k) && Bit(b, k)
  {
    if And(a, b) == 0 {
      forall k: nat
        ensures !(Bit(a, k) && Bit(b, k))
      {
        AndBit(a, b, k);
        ZeroHasNone(k);
      }
    } else {
      Pow2Top();
      if forall k: nat :: k < 32 ==> !Bit(And(a, b), k) {
        NoBits(And(a, b), 32);
        assert false;
      }
      var k: nat :| k < 32 && Bit(And(a, b), k);
      AndBit(a, b, k);
    }
  }

  /** What a masked field must pass: one bit, and an overlap with the capability. */
  lemma {:induction false} SelectsMeans(field: uint32, mask: uint32, capability: uint32)
    requires Inside(capability, mask)
    ensures Selects(field, mask, capability) <==>
      ExactlyOne(BitsOf(And(field, mask)), 32) && And(field, capability) != 0
  {
    var bit := BitsOf(And(field, mask));
    Overlap(field, capability);
    if Selects(field, mask, capability) {
      var k: nat :| IsOnly(bit, 32, k) && Bit(capability, k);
      assert bit(k);
      AndBit(field, mask, k);
    }
    if ExactlyOne(bit, 32) && And(field, capability) != 0 {
      var k: nat :| IsOnly(bit, 32, k);
      var j: nat :| j < 32 && Bit(field, j) && Bit(capability, j);
      AndBit(field, mask, j);
      AndBit(capability, mask, j);
      assert bit(j);
    }
  }

  datatype Sbc = Sbc(sampleRate: uint32, channelMode: uint32, blockLength: uint32, numSubbands: uint32,
                     allocMethod: uint32,
                     bitsPerSample: uint32, minBitpool: nat, maxBitpool: nat)

  predicate SbcInside(c: Sbc) {
    && Inside(c.sampleRate, 0xff) && Inside(c.channelMode, 0x0f) && Inside(c.blockLength, 0xf0)
    && Inside(c.numSubbands, 0x0c) && Inside(c.allocMethod, 0x03) && Inside(c.bitsPerSample, 0x07)
  }

  ghost predicate SbcSelects(d: Sbc, c: Sbc) {
    && Selects(d.sampleRate, 0xff, c.sampleRate) && Selects(d.channelMode, 0x0f, c.channelMode)
    && Selects(d.blockLength, 0xf0, c.blockLength) && Selects(d.numSubbands, 0x0c, c.numSubbands)
    && Selects(d.allocMethod, 0x03, c.allocMethod) && Selects(d.bitsPerSample, 0x07, c.bitsPerSample)
  }

  /** With a capability inside the masks, an SBC configuration is accepted exactly when every field
      selects one supported value and its bit pool is a range within the capability's. */
  method IsOffloadSbcConfigurationValid(data: Option<Sbc>, capability: Sbc) returns (ok: bool)
    ensures SbcInside(capability) ==>
      (ok <==> data.Some? && SbcSelects(data.value, capability)
               && capability.minBitpool <= data.value.minBitpool <= data.value.maxBitpool <= capability.maxBitpool)
  {
    if data.None? {
      return false;
    }
    var d, c := data.value, capability;
    var rate := Passes(d.sampleRate, 0xff, c.sampleRate);
    var mode := Passes(d.channelMode, 0x0f, c.channelMode);
    var block := Passes(d.blockLength, 0xf0, c.blockLength);
    var bands := Passes(d.numSubbands, 0x0c, c.numSubbands);
    var alloc := Passes(d.allocMethod, 0x03, c.allocMethod);
    var bits := Passes(d.bitsPerSample, 0x07, c.bitsPerSample);
    return rate && mode && block && bands && alloc && bits
      && d.minBitpool <= d.maxBitpool && c.minBitpool <= d.minBitpool && d.maxBitpool <= c.maxBitpool;
  }

  datatype Aptx = Aptx(sampleRate: uint32, channelMode: uint32, bitsPerSample: uint32)

  predicate AptxInside(c: Aptx) {
    Inside(c.sampleRate, 0xff) && Inside(c.channelMode, 0x03) && Inside(c.bitsPerSample, 0x07)
  }

  /** aptX and aptX HD differ in their capability only. */
  method IsOffloadAptxConfigurationValid(data: Option<Aptx>, capability: Aptx) returns (ok: bool)
    ensures AptxInside(capability) ==>
      (ok <==> data.Some? && Selects(data.value.sampleRate, 0xff, capability.sampleRate)
               && Selects(data.value.channelMode, 0x03, capability.channelMode)
               && Selects(data.value.bitsPerSample, 0x07, capability.bitsPerSample))
  {
    if data.None? {
      return false;
    }
    var rate := Passes(data.value.sampleRate, 0xff, capability.sampleRate);
    var mode := Passes(data.value.channelMode, 0x03, capability.channelMode);
    var bits := Passes(data.value.bitsPerSample, 0x07, capability.bitsPerSample);
    return rate && mode && bits;
  }

  /** The two tests a validator makes of a field. */
  method Passes(field: uint32, mask: uint32, capability: uint32) returns (ok: bool)
    ensures Inside(capability, mask) ==> (ok <==> Selects(field, mask, capability))
  {
    var single := IsSingleBit(field, mask);
    if Inside(capability, mask) {
      SelectsMeans(field, mask, capability);
    }
    return single && And(field, capability) != 0;
  }
}
