/** The standard check value: the checksum of the ASCII digits 1 to 9 is 0x29B1. It fixes the generator,
    the preset and the bit order. */
module Crc16Check {
  import opened Bits
  import opened Crc16

  /** A hexadecimal digit, and a register as four of them. */
  datatype Digit = Digit(a: bool, b: bool, c: bool, d: bool) {
    function Bits(): (s: Bits)
      ensures |s| == 4
    {
      [a, b, c, d]
    }
  }

  datatype Word = Word(first: Digit, second: Digit, third: Digit, fourth: Digit) {
    function Register(): Reg {
      [first.a, first.b, first.c, first.d, second.a, second.b, second.c, second.d,
       third.a, third.b, third.c, third.d, fourth.a, fourth.b, fourth.c, fourth.d]
    }

    /** Four bits in. The generator has no term near its leading one, so none of them is fed back
        before all four are in. */
    function Fed(n: Digit): Word {
      var t := Digit(first.a != n.a, first.b != n.b, first.c != n.c, first.d != n.d);
      Word(
        Digit(second.a != t.a, second.b != t.b, second.c != t.c, second.d != t.d),
        Digit(third.a, third.b, third.c, third.d != t.a),
        Digit(fourth.a != t.b, fourth.b != t.c, fourth.c != t.d, fourth.d),
        t)
    }

    function FedByte(b: byte): Word {
      Fed(DigitOf(b / 16)).Fed(DigitOf(b % 16))
    }
  }

  function DigitOf(v: nat): Digit {
    Digit(v / 8 % 2 == 1, v / 4 % 2 == 1, v / 2 % 2 == 1, v % 2 == 1)
  }

  function Hex(p: nat, q: nat, r: nat, s: nat): Word {
    Word(DigitOf(p), DigitOf(q), DigitOf(r), DigitOf(s))
  }

  lemma ShiftIs(c: Reg)
    ensures Shift(c) == [
      c[1], c[2], c[3], c[4] != c[0], c[5], c[6], c[7], c[8], c[9], c[10], c[11] != c[0], c[12], c[13], c[14],
      c[15], c[0]]
  {
  }

  lemma TwoShifts(c: Reg)
    ensures Shifts(c, 2) == [
      c[2], c[3], c[4] != c[0], c[5] != c[1], c[6], c[7], c[8], c[9], c[10], c[11] != c[0], c[12] != c[1],
      c[13], c[14], c[15], c[0], c[1]]
  {
    hide Shift;
    ShiftIs(c);
    ShiftIs(Shift(c));
    assert Shifts(c, 2) == Shift(Shift(c));
  }

  lemma FourShifts(c: Reg)
    ensures Shifts(c, 4) == [
      c[4] != c[0], c[5] != c[1], c[6] != c[2], c[7] != c[3], c[8], c[9], c[10], c[11] != c[0], c[12] != c[1],
      c[13] != c[2], c[14] != c[3], c[15], c[0], c[1], c[2], c[3]]
  {
    hide Shift;
    TwoShifts(c);
    TwoShifts(Shifts(c, 2));
    assert Shifts(c, 4) == Shifts(Shifts(c, 2), 2);
  }

  lemma FourBits(c: Reg, n: Bits)
    requires |n| == 4
    ensures var t0, t1, t2, t3 := c[0] != n[0], c[1] != n[1], c[2] != n[2], c[3] != n[3];
      Serial(c, n) == [
        c[4] != t0, c[5] != t1, c[6] != t2, c[7] != t3, c[8], c[9], c[10], c[11] != t0, c[12] != t1,
        c[13] != t2, c[14] != t3, c[15], t0, t1, t2, t3]
  {
    hide Shift, Shifts, Serial;
    SerialIsShifts(c, n);
    FourShifts(Xor(c, n + Zeros(12)));
  }

  lemma FedIsSerial(w: Word, n: Digit)
    ensures Serial(w.Register(), n.Bits()) == w.Fed(n).Register()
  {
    hide Serial;
    FourBits(w.Register(), n.Bits());
  }

  lemma LowBits(v: nat)
    ensures v / 2 / 2 == v / 4 && v / 4 / 2 == v / 8 && v / 8 / 2 == v / 16
    ensures DigitOf(v % 16) == DigitOf(v)
  {
  }

  lemma LowDigit(n: nat, v: nat)
    ensures ToBits(n + 4, v) == ToBits(n, v / 16) + DigitOf(v % 16).Bits()
  {
    var a, b, c := v / 2, v / 4, v / 8;
    LowBits(v);
    assert ToBits(n + 3, a) == ToBits(n + 2, b) + [a % 2 == 1];
    assert ToBits(n + 2, b) == ToBits(n + 1, c) + [b % 2 == 1];
    assert ToBits(n + 1, c) == ToBits(n, v / 16) + [c % 2 == 1];
  }

  lemma OneDigit(v: nat)
    requires v < 16
    ensures ToBits(4, v) == DigitOf(v).Bits()
  {
    LowDigit(0, v);
    hide DigitOf;
    assert ToBits(0, v / 16) == [];
  }

  lemma DigitsOfByte(b: byte)
    ensures ByteBits(b) == DigitOf(b / 16).Bits() + DigitOf(b % 16).Bits()
  {
    hide DigitOf, ToBits;
    LowDigit(4, b);
    OneDigit(b / 16);
  }

  lemma FedByteIsStep(w: Word, b: byte)
    ensures ByteStep(w.Register(), b) == w.FedByte(b).Register()
  {
    hide Serial, ByteStep;
    ByteStepIsSerial(w.Register(), b);
    DigitsOfByte(b);
    SerialAppend(w.Register(), DigitOf(b / 16).Bits(), DigitOf(b % 16).Bits());
    FedIsSerial(w, DigitOf(b / 16));
    FedIsSerial(w.Fed(DigitOf(b / 16)), DigitOf(b % 16));
  }

  /** The registers a message goes through. */
  lemma {:induction false} Passes(words: seq<Word>, data: seq<byte>)
    requires |words| == |data| + 1
    requires forall i :: 0 <= i < |data| ==> words[i + 1] == words[i].FedByte(data[i])
    ensures Crc(words[0].Register(), data) == words[|data|].Register()
    decreases |data|
  {
    hide ByteStep;
    if data != [] {
      FedByteIsStep(words[0], data[0]);
      Passes(words[1..], data[1..]);
    }
  }

  lemma CheckValue()
    ensures Value(Crc(INIT, [0x31, 0x32, 0x33, 0x34, 0x35, 0x36, 0x37, 0x38, 0x39])) == 0x29B1
  {
    hide Crc, Value, Hex, Word.FedByte;
    var data: seq<byte> := [0x31, 0x32, 0x33, 0x34, 0x35, 0x36, 0x37, 0x38, 0x39];
    Registers();
    var words := [
      Hex(15, 15, 15, 15), Hex(12, 7, 8, 2), Hex(3, 13, 11, 10), Hex(5, 11, 12, 14), Hex(5, 3, 4, 9),
      Hex(4, 5, 6, 0), Hex(2, 14, 15, 4), Hex(7, 7, 1, 8), Hex(10, 1, 2, 11), Hex(2, 9, 11, 1)];
    Passes(words, data);
    Preset();
    HexValue(2, 9, 11, 1);
  }

  /** The register after each digit. */
  lemma Registers()
    ensures Hex(15, 15, 15, 15).FedByte(0x31) == Hex(12, 7, 8, 2)
    ensures Hex(12, 7, 8, 2).FedByte(0x32) == Hex(3, 13, 11, 10)
    ensures Hex(3, 13, 11, 10).FedByte(0x33) == Hex(5, 11, 12, 14)
    ensures Hex(5, 11, 12, 14).FedByte(0x34) == Hex(5, 3, 4, 9)
    ensures Hex(5, 3, 4, 9).FedByte(0x35) == Hex(4, 5, 6, 0)
    ensures Hex(4, 5, 6, 0).FedByte(0x36) == Hex(2, 14, 15, 4)
    ensures Hex(2, 14, 15, 4).FedByte(0x37) == Hex(7, 7, 1, 8)
    ensures Hex(7, 7, 1, 8).FedByte(0x38) == Hex(10, 1, 2, 11)
    ensures Hex(10, 1, 2, 11).FedByte(0x39) == Hex(2, 9, 11, 1)
  {
  }

  lemma Preset()
    ensures Hex(15, 15, 15, 15).Register() == INIT
  {
  }

  lemma TwoDigits(m: Digit, n: Digit)
    ensures m.Bits() + n.Bits() == [m.a, m.b, m.c, m.d, n.a, n.b, n.c, n.d]
  {
  }

  lemma RegisterIs(w: Word)
    ensures w.Register() == w.first.Bits() + w.second.Bits() + w.third.Bits() + w.fourth.Bits()
  {
    var r := w.Register();
    var high, low := w.first.Bits() + w.second.Bits(), w.third.Bits() + w.fourth.Bits();
    TwoDigits(w.first, w.second);
    TwoDigits(w.third, w.fourth);
    assert r[..8] == high && r[8..] == low;
    hide Digit.Bits;
    assert r == r[..8] + r[8..];
    assert high + low == high + w.third.Bits() + w.fourth.Bits();
  }

  lemma HexValue(p: nat, q: nat, r: nat, s: nat)
    requires p < 16 && q < 16 && r < 16 && s < 16
    ensures Value(Hex(p, q, r, s).Register()) == 16 * (16 * (16 * p + q) + r) + s
  {
    hide Value, Pow2, ToBits, DigitOf, Word.Register, Digit.Bits;
    Pow2Of8And16();
    var v := 16 * p + q;
    OneDigit(p);
    LowDigit(4, v);
    LowDigit(8, 16 * v + r);
    LowDigit(12, 16 * (16 * v + r) + s);
    RegisterIs(Hex(p, q, r, s));
    ValueToBits(16, 16 * (16 * v + r) + s);
  }
}
