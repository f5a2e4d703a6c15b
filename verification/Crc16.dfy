/** The frame checksum: CRC-16 with generator x^16 + x^12 + x^5 + 1 (section 2 of ITU-T V.41),
    register preset to all ones, no reflection. */
module Crc16 {
  import opened Bits

  // 0x1021, the generator without its leading term.
  const POLY: Reg :=
    [false, false, false, true, false, false, false, false,
     false, false, true, false, false, false, false, true]
  const INIT: Reg :=
    [true, true, true, true, true, true, true, true,
     true, true, true, true, true, true, true, true]

  // ---- Reference: schoolbook division over GF(2) ----

  /** The remainder of `dividend` on division by the 17-term generator [true] + POLY. */
  function LongDivide(dividend: Bits): (remainder: Bits)
    requires |dividend| >= 16
    ensures |remainder| == 16
    decreases |dividend|
  {
    if |dividend| == 16 then dividend
    else if dividend[0] then LongDivide(Xor(dividend[1..17], POLY) + dividend[17..])
    else LongDivide(dividend[1..])
  }

  /** The dividend a CRC divides: the message shifted up by the register width, with the preset
      register added to its leading terms. */
  function Dividend(preset: Reg, message: Bits): (d: Bits)
    ensures |d| == |message| + 16
    ensures forall i :: 0 <= i < |d| ==>
      d[i] == ((i < |message| && message[i]) != (i < 16 && preset[i]))
  {
    var shifted := message + Zeros(16);
    Xor(preset, shifted[..16]) + shifted[16..]
  }

  // ---- Bit-serial register ----

  function Shift(c: Reg): (r: Reg) {
    if c[0] then Xor(c[1..] + [false], POLY) else c[1..] + [false]
  }

  function BitIn(c: Reg, bit: bool): Reg {
    Shift(c[0 := c[0] != bit])
  }

  function Serial(c: Reg, message: Bits): Reg
    decreases |message|
  {
    if message == [] then c else Serial(BitIn(c, message[0]), message[1..])
  }

  function Shifts(c: Reg, n: nat): Reg
    decreases n
  {
    if n == 0 then c else Shifts(Shift(c), n - 1)
  }

  lemma {:induction false} SerialIsLongDivision(c: Reg, message: Bits)
    ensures Serial(c, message) == LongDivide(Dividend(c, message))
    decreases |message|
  {
    var d := Dividend(c, message);
    if message == [] {
      assert d == c;
    } else {
      var next := BitIn(c, message[0]);
      SerialIsLongDivision(next, message[1..]);
      var rest := if d[0] then Xor(d[1..17], POLY) + d[17..] else d[1..];
      var expected := Dividend(next, message[1..]);
      forall i | 0 <= i < |expected|
        ensures rest[i] == expected[i]
      {
        assert d[i + 1] == ((i + 1 < |message| && message[i + 1]) != (i + 1 < 16 && c[i + 1]));
      }
      assert rest == expected;
    }
  }

  lemma {:induction false} SerialAppend(c: Reg, a: Bits, b: Bits)
    ensures Serial(c, a + b) == Serial(Serial(c, a), b)
    decreases |a|
  {
    if a == [] {
      assert a + b == b;
    } else {
      SerialAppend(BitIn(c, a[0]), a[1..], b);
      assert (a + b)[1..] == a[1..] + b;
    }
  }

  // ---- Linearity and injectivity ----

  lemma ShiftLinear(a: Reg, b: Reg)
    ensures Shift(Xor(a, b)) == Xor(Shift(a), Shift(b))
  {
  }

  lemma {:induction false} ShiftsLinear(a: Reg, b: Reg, n: nat)
    ensures Shifts(Xor(a, b), n) == Xor(Shifts(a, n), Shifts(b, n))
    decreases n
  {
    if n == 0 {
    } else {
      ShiftLinear(a, b);
      ShiftsLinear(Shift(a), Shift(b), n - 1);
    }
  }

  /** Adding the bits and shifting once is a step on the first of them, then adding the others. */
  lemma ShiftsPastTop(c: Reg, e: Bits)
    requires 0 < |e| <= 16
    ensures Shift(Xor(c, e + Zeros(16 - |e|)))
      == Xor(BitIn(c, e[0]), e[1..] + Zeros(16 - |e[1..]|))
  {
    hide Shift;
    var top := [e[0]] + Zeros(15);
    var low := [false] + e[1..] + Zeros(16 - |e|);
    assert c[0 := c[0] != e[0]] == Xor(c, top);
    ShiftLinear(Xor(c, top), low);
    ShiftOfLow(e);
    assert Xor(Xor(c, top), low) == Xor(c, e + Zeros(16 - |e|));
  }

  lemma ShiftOfLow(e: Bits)
    requires 0 < |e| <= 16
    ensures Shift([false] + e[1..] + Zeros(16 - |e|)) == e[1..] + Zeros(16 - |e[1..]|)
  {
  }

  /** Feeding up to 16 bits is adding them to the top of the register and then shifting. */
  lemma {:induction false} SerialIsShifts(c: Reg, e: Bits)
    requires |e| <= 16
    ensures Serial(c, e) == Shifts(Xor(c, e + Zeros(16 - |e|)), |e|)
    decreases |e|
  {
    if e == [] {
      assert Xor(c, Zeros(16)) == c;
    } else {
      SerialIsShifts(BitIn(c, e[0]), e[1..]);
      ShiftsPastTop(c, e);
    }
  }

  lemma {:induction false} ShiftsOfLow(c: Reg, n: nat)
    requires n <= 16 && forall i :: 0 <= i < n ==> !c[i]
    ensures Shifts(c, n) == c[n..] + Zeros(n)
    decreases n
  {
    if n == 0 {
    } else {
      ShiftsOfLow(Shift(c), n - 1);
    }
  }

  // ---- The table-driven form ----

  /** One entry of the table: eight shifts of the index in the register's high byte. */
  function TableEntry(index: byte): Reg {
    Shifts(ByteBits(index) + Zeros(8), 8)
  }

  predicate IsTable(table: seq<Reg>) {
    |table| == 256 && forall i :: 0 <= i < 256 ==> table[i] == TableEntry(i)
  }

  function ByteStep(c: Reg, b: byte): Reg {
    Xor(c[8..] + Zeros(8), TableEntry(ByteOf(Xor(c[..8], ByteBits(b)))))
  }

  function Crc(c: Reg, data: seq<byte>): Reg
    decreases |data|
  {
    if data == [] then c else Crc(ByteStep(c, data[0]), data[1..])
  }

  lemma ByteStepIsSerial(c: Reg, b: byte)
    ensures ByteStep(c, b) == Serial(c, ByteBits(b))
  {
    var high := Xor(c[..8], ByteBits(b));
    var x := high + Zeros(8);
    var y := Zeros(8) + c[8..];
    ToBitsValue(high);
    SerialIsShifts(c, ByteBits(b));
    assert Xor(c, ByteBits(b) + Zeros(8)) == Xor(x, y);
    ShiftsLinear(x, y, 8);
    ShiftsOfLow(y, 8);
    assert y[8..] == c[8..];
    assert Xor(Shifts(x, 8), c[8..] + Zeros(8)) == Xor(c[8..] + Zeros(8), Shifts(x, 8));
  }

  lemma {:induction false} CrcIsSerial(c: Reg, data: seq<byte>)
    ensures Crc(c, data) == Serial(c, MessageBits(data))
    decreases |data|
  {
    if data == [] {
    } else {
      ByteStepIsSerial(c, data[0]);
      CrcIsSerial(ByteStep(c, data[0]), data[1..]);
      SerialAppend(c, ByteBits(data[0]), MessageBits(data[1..]));
    }
  }

  /** The table-driven register is the remainder of polynomial division, from any preset. */
  lemma CrcIsLongDivision(c: Reg, data: seq<byte>)
    ensures Crc(c, data) == LongDivide(Dividend(c, MessageBits(data)))
  {
    CrcIsSerial(c, data);
    SerialIsLongDivision(c, MessageBits(data));
  }

  lemma CrcAppend(c: Reg, a: seq<byte>, b: seq<byte>)
    ensures Crc(c, a + b) == Crc(Crc(c, a), b)
    decreases |a|
  {
    CrcIsSerial(c, a + b);
    CrcIsSerial(c, a);
    CrcIsSerial(Crc(c, a), b);
    MessageBitsAppend(a, b);
    SerialAppend(c, MessageBits(a), MessageBits(b));
  }

  // ---- The loops ----

  method MakeTable() returns (table: seq<Reg>)
    ensures IsTable(table)
  {
    table := [];
    for i := 0 to 256
      invariant |table| == i && forall k :: 0 <= k < i ==> table[k] == TableEntry(k)
    {
      var crc: Reg := ByteBits(i) + Zeros(8);
      for bit := 0 to 8
        invariant Shifts(crc, 8 - bit) == TableEntry(i)
      {
        crc := if crc[0] then Xor(crc[1..] + [false], POLY) else crc[1..] + [false];
      }
      table := table + [crc];
    }
  }

  method ComputeCrc(table: seq<Reg>, data: seq<byte>, preset: Reg) returns (crc: Reg)
    requires IsTable(table)
    ensures crc == Crc(preset, data) == LongDivide(Dividend(preset, MessageBits(data)))
  {
    crc := preset;
    for i := 0 to |data|
      invariant Crc(crc, data[i..]) == Crc(preset, data)
    {
      var index := ByteOf(Xor(crc[..8], ByteBits(data[i])));
      crc := Xor(crc[8..] + Zeros(8), table[index]);
      assert data[i..][1..] == data[i + 1..];
    }
    CrcIsLongDivision(preset, data);
  }

  // ---- Error detection ----

  lemma ShiftInjective(a: Reg, b: Reg)
    requires Shift(a) == Shift(b)
    ensures a == b
  {
    // The generator's last term is the only way into the register's last bit.
    assert Shift(a)[15] == a[0] && Shift(b)[15] == b[0];
    forall i | 1 <= i < 16
      ensures a[i] == b[i]
    {
      assert Shift(a)[i - 1] == (a[i] != (a[0] && POLY[i - 1]));
      assert Shift(b)[i - 1] == (b[i] != (b[0] && POLY[i - 1]));
    }
  }

  lemma {:induction false} ShiftsInjective(a: Reg, b: Reg, n: nat)
    requires Shifts(a, n) == Shifts(b, n)
    ensures a == b
    decreases n
  {
    if n == 0 {
    } else {
      ShiftsInjective(Shift(a), Shift(b), n - 1);
      ShiftInjective(a, b);
    }
  }

  /** Every byte permutes the register: equal results come from equal registers. */
  lemma {:induction false} SerialInjective(a: Reg, b: Reg, message: Bits)
    requires Serial(a, message) == Serial(b, message)
    ensures a == b
    decreases |message|
  {
    if message == [] {
    } else {
      SerialInjective(BitIn(a, message[0]), BitIn(b, message[0]), message[1..]);
      ShiftInjective(a[0 := a[0] != message[0]], b[0 := b[0] != message[0]]);
      assert a[0] == b[0];
      assert forall i :: 0 < i < 16 ==> a[i] == a[0 := a[0] != message[0]][i];
      assert forall i :: 0 < i < 16 ==> b[i] == b[0 := b[0] != message[0]][i];
    }
  }

  lemma ShortBurstChangesSerial(c: Reg, sent: Bits, received: Bits)
    requires |sent| == |received| <= 16 && sent != received
    ensures Serial(c, sent) != Serial(c, received)
  {
    if Serial(c, sent) == Serial(c, received) {
      SerialIsShifts(c, sent);
      SerialIsShifts(c, received);
      var pad := Zeros(16 - |sent|);
      ShiftsInjective(Xor(c, sent + pad), Xor(c, received + pad), |sent|);
      forall i | 0 <= i < |sent|
        ensures sent[i] == received[i]
      {
        assert Xor(c, sent + pad)[i] == Xor(c, received + pad)[i];
      }
      assert false;
    }
  }

  /** Any corruption confined to 16 consecutive bits, at any bit offset of a message of any
      length, changes the CRC. */
  lemma BurstChangesSerial(c: Reg, before: Bits, sent: Bits, received: Bits, after: Bits)
    requires |sent| == |received| <= 16 && sent != received
    ensures Serial(c, before + sent + after) != Serial(c, before + received + after)
  {
    var mid := Serial(c, before);
    SerialAppend(c, before + sent, after);
    SerialAppend(c, before, sent);
    SerialAppend(c, before + received, after);
    SerialAppend(c, before, received);
    ShortBurstChangesSerial(mid, sent, received);
    if Serial(Serial(mid, sent), after) == Serial(Serial(mid, received), after) {
      SerialInjective(Serial(mid, sent), Serial(mid, received), after);
    }
  }

  /** `a` and `b` agree outside the `width` bits starting at `at`. */
  ghost predicate AgreeOutside(a: Bits, b: Bits, at: nat, width: nat) {
    |a| == |b| && at + width <= |a| && a[..at] == b[..at] && a[at + width..] == b[at + width..]
  }

  lemma BurstChangesSerialAt(c: Reg, s: Bits, r: Bits, at: nat, width: nat)
    requires s != r && width <= 16 && AgreeOutside(s, r, at, width)
    ensures Serial(c, s) != Serial(c, r)
  {
    assert s == s[..at] + s[at..at + width] + s[at + width..];
    assert r == s[..at] + r[at..at + width] + s[at + width..];
    BurstChangesSerial(c, s[..at], s[at..at + width], r[at..at + width], s[at + width..]);
  }

  lemma BurstChangesCrc(c: Reg, sent: seq<byte>, received: seq<byte>, at: nat, width: nat)
    requires |sent| == |received| && sent != received && width <= 16
    requires AgreeOutside(MessageBits(sent), MessageBits(received), at, width)
    ensures Crc(c, sent) != Crc(c, received)
  {
    if MessageBits(sent) == MessageBits(received) {
      MessageBitsInjective(sent, received);
    }
    CrcIsSerial(c, sent);
    CrcIsSerial(c, received);
    BurstChangesSerialAt(c, MessageBits(sent), MessageBits(received), at, width);
  }

  /** In particular, any change confined to two adjacent bytes. */
  lemma AdjacentBytesChangeCrc(c: Reg, sent: seq<byte>, received: seq<byte>, k: nat)
    requires |sent| == |received| && sent != received && k + 2 <= |sent|
    requires sent[..k] == received[..k] && sent[k + 2..] == received[k + 2..]
    ensures Crc(c, sent) != Crc(c, received)
  {
    assert sent == sent[..k] + (sent[k..k + 2] + sent[k + 2..]);
    assert received == received[..k] + (received[k..k + 2] + received[k + 2..]);
    MessageBitsAppend(sent[..k], sent[k..k + 2] + sent[k + 2..]);
    MessageBitsAppend(sent[k..k + 2], sent[k + 2..]);
    MessageBitsAppend(received[..k], received[k..k + 2] + received[k + 2..]);
    MessageBitsAppend(received[k..k + 2], received[k + 2..]);
    BurstChangesCrc(c, sent, received, 8 * k, 16);
  }
}
