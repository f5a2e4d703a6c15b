/** Bit strings, most significant bit first, and their unsigned values. */
module Bits {

  type byte = b: nat | b < 256

  type Bits = seq<bool>

  /** A 16-bit register. */
  type Reg = r: seq<bool> | |r| == 16 witness Zeros(16)

  function Zeros(n: nat): (z: Bits)
    ensures |z| == n && forall i :: 0 <= i < n ==> !z[i]
  {
    seq(n, _ => false)
  }

  function Xor(a: Bits, b: Bits): (r: Bits)
    requires |a| == |b|
    ensures |r| == |a| && forall i :: 0 <= i < |a| ==> r[i] == (a[i] != b[i])
  {
    seq(|a|, i requires 0 <= i < |a| => a[i] != b[i])
  }

  function Pow2(n: nat): (p: nat)
    ensures p > 0
  {
    if n == 0 then 1 else 2 * Pow2(n - 1)
  }

  /** The n low bits of v. */
  function ToBits(n: nat, v: nat): (s: Bits)
    ensures |s| == n
  {
    if n == 0 then [] else ToBits(n - 1, v / 2) + [v % 2 == 1]
  }

  function Value(s: Bits): (v: nat)
    ensures v < Pow2(|s|)
  {
    if s == [] then 0
    else 2 * Value(s[..|s| - 1]) + (if s[|s| - 1] then 1 else 0)
  }

  lemma {:induction false} ToBitsValue(s: Bits)
    ensures ToBits(|s|, Value(s)) == s
  {
    if s == [] {
    } else {
      ToBitsValue(s[..|s| - 1]);
    }
  }

  lemma {:induction false} ValueToBits(n: nat, v: nat)
    requires v < Pow2(n)
    ensures Value(ToBits(n, v)) == v
  {
    if n == 0 {
    } else {
      ValueToBits(n - 1, v / 2);
    }
  }

  lemma Pow2Of8And16()
    ensures Pow2(8) == 256 && Pow2(16) == 65536
  {
    assert Pow2(4) == 16;
    assert Pow2(8) == 16 * Pow2(4);
    assert Pow2(12) == 16 * Pow2(8);
    assert Pow2(16) == 16 * Pow2(12);
  }

  function ByteBits(b: byte): (s: Bits)
    ensures |s| == 8
  {
    ToBits(8, b)
  }

  function ByteOf(s: Bits): byte
    requires |s| == 8
  {
    Pow2Of8And16();
    Value(s)
  }

  lemma ByteBitsInjective(a: byte, b: byte)
    requires ByteBits(a) == ByteBits(b)
    ensures a == b
  {
    Pow2Of8And16();
    ValueToBits(8, a);
    ValueToBits(8, b);
  }

  /** The bits of a message in transmission order. */
  function MessageBits(data: seq<byte>): (s: Bits)
    ensures |s| == 8 * |data|
  {
    if data == [] then [] else ByteBits(data[0]) + MessageBits(data[1..])
  }

  lemma {:induction false} MessageBitsAppend(a: seq<byte>, b: seq<byte>)
    ensures MessageBits(a + b) == MessageBits(a) + MessageBits(b)
  {
    if a == [] {
      assert a + b == b;
    } else {
      MessageBitsAppend(a[1..], b);
      assert (a + b)[1..] == a[1..] + b;
    }
  }

  lemma {:induction false} MessageBitsInjective(a: seq<byte>, b: seq<byte>)
    requires |a| == |b| && MessageBits(a) == MessageBits(b)
    ensures a == b
  {
    if a == [] {
    } else {
      assert ByteBits(a[0]) == MessageBits(a)[..8] == ByteBits(b[0]);
      ByteBitsInjective(a[0], b[0]);
      assert MessageBits(a[1..]) == MessageBits(a)[8..] == MessageBits(b[1..]);
      MessageBitsInjective(a[1..], b[1..]);
    }
  }
}
