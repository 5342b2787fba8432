/** Little-endian fields inside byte buffers, as the GET_n_BYTES and PUT_4_BYTES macros access them. */
module Bytes {

  type byte = x: int | 0 <= x < 0x100
  type uint32 = x: int | 0 <= x < 0x1_0000_0000

  /** The value of a little-endian field of up to four bytes. */
  function Value(b: seq<byte>): (r: nat)
    requires |b| <= 4
    ensures r < Capacity(|b|)
  {
    if b == [] then 0 else b[0] as int + 0x100 * Value(b[1..])
  }

  function Capacity(n: nat): nat
    requires n <= 4
  {
    if n == 0 then 1 else 0x100 * Capacity(n - 1)
  }

  /** The little-endian field of n bytes that holds v. */
  function Field(v: nat, n: nat): (r: seq<byte>)
    requires n <= 4 && v < Capacity(n)
    ensures |r| == n && Value(r) == v
  {
    if n == 0 then [] else
      var rest := Field(v / 0x100, n - 1);
      assert ([(v % 0x100) as byte] + rest)[1..] == rest;
      [v % 0x100] + rest
  }

  lemma {:induction false} ValueInjective(a: seq<byte>, b: seq<byte>)
    requires |a| == |b| <= 4 && Value(a) == Value(b)
    ensures a == b
  {
    if a == [] {
    } else {
      assert a[0] == b[0];
      ValueInjective(a[1..], b[1..]);
      assert a == [a[0]] + a[1..] && b == [b[0]] + b[1..];
    }
  }

  /** GET_4_BYTES: the four bytes at off, least significant first. */
  function Get4(b: seq<byte>, off: nat): uint32
    requires off + 4 <= |b|
  {
    assert Capacity(4) == 0x1_0000_0000;
    Value(b[off..off + 4])
  }

  /** GET_8_BYTES. */
  function Get8(b: seq<byte>, off: nat): nat
    requires off + 8 <= |b|
  {
    Get4(b, off) as int + 0x1_0000_0000 * Get4(b, off + 4) as int
  }

  /** Overwrites |part| bytes of whole, starting at off. */
  function Splice(whole: seq<byte>, off: nat, part: seq<byte>): (r: seq<byte>)
    requires off + |part| <= |whole|
    ensures |r| == |whole|
    ensures forall i :: 0 <= i < |whole| ==> r[i] == if off <= i < off + |part| then part[i - off] else whole[i]
  {
    whole[..off] + part + whole[off + |part|..]
  }

  lemma SpliceKeepsFields(b: seq<byte>, off: nat, part: seq<byte>)
    requires off + |part| <= |b|
    ensures forall o: nat :: o + 4 <= off || off + |part| <= o <= |b| - 4 ==>
      Get4(Splice(b, off, part), o) == Get4(b, o)
  {
    forall o: nat | o + 4 <= off || off + |part| <= o <= |b| - 4
      ensures Get4(Splice(b, off, part), o) == Get4(b, o)
    {
      assert Splice(b, off, part)[o..o + 4] == b[o..o + 4];
    }
  }

  /** PUT_4_BYTES: a following read returns v, and no other byte moves. */
  function Put4(b: seq<byte>, off: nat, v: uint32): (r: seq<byte>)
    requires off + 4 <= |b|
    ensures |r| == |b|
    ensures forall i :: 0 <= i < |b| && !(off <= i < off + 4) ==> r[i] == b[i]
    ensures Get4(r, off) == v
    ensures forall o: nat :: o + 4 <= off || off + 4 <= o <= |b| - 4 ==> Get4(r, o) == Get4(b, o)
  {
    assert Capacity(4) == 0x1_0000_0000;
    var f := Field(v, 4);
    var r := Splice(b, off, f);
    assert r[off..off + 4] == f;
    SpliceKeepsFields(b, off, f);
    r
  }

  /** A four-byte field determines its four bytes. */
  lemma Get4Injective(a: seq<byte>, b: seq<byte>, off: nat)
    requires off + 4 <= |a| == |b|
    requires Get4(a, off) == Get4(b, off)
    ensures forall i :: off <= i < off + 4 ==> a[i] == b[i]
  {
    ValueInjective(a[off..off + 4], b[off..off + 4]);
    forall i | off <= i < off + 4
      ensures a[i] == b[i]
    {
      assert a[i] == a[off..off + 4][i - off] && b[i] == b[off..off + 4][i - off];
    }
  }

  /** A four-byte field depends on its own four bytes only. */
  lemma Get4Frame(a: seq<byte>, b: seq<byte>, off: nat)
    requires off + 4 <= |a| && off + 4 <= |b|
    requires forall i :: off <= i < off + 4 ==> a[i] == b[i]
    ensures Get4(a, off) == Get4(b, off)
  {
    assert a[off..off + 4] == b[off..off + 4];
  }

  /** memcpy between two buffers, or inside one when the two stretches do not overlap. */
  method Memcpy(dst: array<byte>, to: nat, src: array<byte>, from: nat, n: nat)
    requires to + n <= dst.Length && from + n <= src.Length
    requires dst != src || to + n <= from || from + n <= to
    modifies dst
    ensures dst[..] == Splice(old(dst[..]), to, old(src[from..from + n]))
  {
    ghost var whole, part := dst[..], src[from..from + n];
    for i := 0 to n
      invariant dst[..] == Splice(whole, to, part[..i])
      invariant forall k :: from + i <= k < from + n ==> src[k] == part[k - from]
    {
      dst[to + i] := src[from + i];
    }
  }

  /** memcpy from a constant. */
  method PutBytes(dst: array<byte>, to: nat, bytes: seq<byte>)
    requires to + |bytes| <= dst.Length
    modifies dst
    ensures dst[..] == Splice(old(dst[..]), to, bytes)
  {
    ghost var whole := dst[..];
    for i := 0 to |bytes|
      invariant dst[..] == Splice(whole, to, bytes[..i])
    {
      dst[to + i] := bytes[i];
    }
    assert bytes[..|bytes|] == bytes;
  }

  lemma FieldBytes(v: uint32)
    ensures Capacity(4) == 0x1_0000_0000
    ensures Field(v, 4) == [v % 0x100, v / 0x100 % 0x100, v / 0x1_0000 % 0x100, v / 0x100_0000]
  {
    assert Field(v, 4) == [v % 0x100] + Field(v / 0x100, 3);
    assert Field(v / 0x100, 3) == [v / 0x100 % 0x100] + Field(v / 0x1_0000, 2);
    assert Field(v / 0x1_0000, 2) == [v / 0x1_0000 % 0x100] + Field(v / 0x100_0000, 1);
    assert Field(v / 0x100_0000, 1) == [v / 0x100_0000];
  }

  /** The PUT_4_BYTES macro itself, on a heap buffer. */
  method Put4InPlace(b: array<byte>, off: nat, v: uint32)
    requires off + 4 <= b.Length
    modifies b
    ensures b[..] == Put4(old(b[..]), off, v)
  {
    ghost var f := Field(v, 4);
    FieldBytes(v);
    b[off], b[off + 1], b[off + 2], b[off + 3] :=
      v % 0x100, v / 0x100 % 0x100, v / 0x1_0000 % 0x100, v / 0x100_0000;
    assert b[..] == Splice(old(b[..]), off, f);
  }
}
