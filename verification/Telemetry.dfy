/** The telemetry payload: a 20-byte head, then the chains the head announces. */
module Telemetry {
  import opened Wrappers
  import opened Bits
  import opened Framing

  type i16 = x: int | -0x8000 <= x < 0x8000

  const MAX_CHAINS := 4
  const MAX_MOTORS := 5
  const MOTOR_SIZE := 21
  const CHAIN_SIZE := 119
  const HEAD_SIZE := 20

  datatype TeleMotor = TeleMotor(
    pos: i16, vel: i16, tau: i16, tempC: byte, driveState: byte, driveFault: byte, rsMode: byte,
    rsFaultBits: byte, flags: byte, fbAgeMs: byte, rsFaultWord: u32, lastAppliedSeq: u16,
    reserved: u16)

  datatype TeleChain = TeleChain(
    chainId: byte, nMotors: byte, link: byte, spiSeqEcho: byte, spiResyncs: byte,
    slaveTimeUs: u32, cmdCrcErrors: u16, canTxErrors: u16, spiTxArmFails: byte,
    motors: seq<TeleMotor>)

  datatype RobotTelemetry = RobotTelemetry(
    cycleId: u16, masterTimeUs: u32, lastCmdSeqRx: u16, cmdSeqActive: u16, cmdOnTime: u16,
    cmdLate: u16, cmdMissing: u16, cmdDuplicate: u16, nChains: byte, robotState: byte,
    chains: seq<TeleChain>)

  predicate FixedSize(t: RobotTelemetry) {
    |t.chains| == MAX_CHAINS && forall c :: c in t.chains ==> |c.motors| == MAX_MOTORS
  }

  const ZERO_MOTOR := TeleMotor(0, 0, 0, 0, 0, 0, 0, 0, 0, 0, 0, 0, 0)
  const ZERO_CHAIN :=
    TeleChain(0, 0, 0, 0, 0, 0, 0, 0, 0, [ZERO_MOTOR, ZERO_MOTOR, ZERO_MOTOR, ZERO_MOTOR, ZERO_MOTOR])

  // ---- Scalars ----

  function Signed(x: i16): (s: seq<byte>)
    ensures |s| == 2
  {
    Le16(if x >= 0 then x else x + 0x1_0000)
  }

  function GetSigned(s: seq<byte>, at: nat): i16
    requires at + 2 <= |s|
  {
    var v := Get16(s, at);
    if v < 0x8000 then v else v - 0x1_0000
  }

  // ---- One motor ----

  function EncodeMotor(m: TeleMotor): (s: seq<byte>)
    ensures |s| == MOTOR_SIZE
  {
    Signed(m.pos) + Signed(m.vel) + Signed(m.tau)
    + [m.tempC, m.driveState, m.driveFault, m.rsMode, m.rsFaultBits, m.flags, m.fbAgeMs]
    + Le32(m.rsFaultWord) + Le16(m.lastAppliedSeq) + Le16(m.reserved)
  }

  function DecodeMotor(s: seq<byte>): TeleMotor
    requires |s| == MOTOR_SIZE
  {
    TeleMotor(GetSigned(s, 0), GetSigned(s, 2), GetSigned(s, 4), s[6], s[7], s[8], s[9], s[10],
              s[11], s[12], Get32(s, 13), Get16(s, 17), Get16(s, 19))
  }

  lemma MotorDecodes(m: TeleMotor)
    ensures DecodeMotor(EncodeMotor(m)) == m
  {
  }

  lemma Le16OfGet(s: seq<byte>, at: nat)
    requires at + 2 <= |s|
    ensures Le16(Get16(s, at)) == s[at..at + 2]
  {
  }

  lemma Le32OfGet(s: seq<byte>, at: nat)
    requires at + 4 <= |s|
    ensures Le32(Get32(s, at)) == s[at..at + 4]
  {
    hide Le16, Get16;
    Le16OfGet(s, at);
    Le16OfGet(s, at + 2);
    Halves(Get16(s, at), Get16(s, at + 2));
    assert s[at..at + 4] == s[at..at + 2] + s[at + 2..at + 4];
  }

  lemma Halves(low: u16, high: u16)
    ensures (low + 0x1_0000 * high) % 0x1_0000 == low
    ensures (low + 0x1_0000 * high) / 0x1_0000 == high
  {
  }

  lemma MotorEncodes(s: seq<byte>)
    requires |s| == MOTOR_SIZE
    ensures EncodeMotor(DecodeMotor(s)) == s
  {
    hide Get16, Get32, Le16, Le32;
    assert Signed(GetSigned(s, 0)) == s[0..2] by { Le16OfGet(s, 0); }
    assert Signed(GetSigned(s, 2)) == s[2..4] by { Le16OfGet(s, 2); }
    assert Signed(GetSigned(s, 4)) == s[4..6] by { Le16OfGet(s, 4); }
    Le32OfGet(s, 13);
    Le16OfGet(s, 17);
    Le16OfGet(s, 19);
  }

  // ---- One chain ----

  function EncodeMotors(ms: seq<TeleMotor>): (s: seq<byte>)
    requires |ms| == MAX_MOTORS
    ensures |s| == MAX_MOTORS * MOTOR_SIZE
  {
    EncodeMotor(ms[0]) + EncodeMotor(ms[1]) + EncodeMotor(ms[2]) + EncodeMotor(ms[3])
    + EncodeMotor(ms[4])
  }

  function DecodeMotors(s: seq<byte>): (ms: seq<TeleMotor>)
    requires |s| == MAX_MOTORS * MOTOR_SIZE
    ensures |ms| == MAX_MOTORS
  {
    [DecodeMotor(s[..21]), DecodeMotor(s[21..42]), DecodeMotor(s[42..63]), DecodeMotor(s[63..84]),
     DecodeMotor(s[84..])]
  }

  lemma MotorsDecode(ms: seq<TeleMotor>)
    requires |ms| == MAX_MOTORS
    ensures DecodeMotors(EncodeMotors(ms)) == ms
  {
    hide EncodeMotor, DecodeMotor;
    var s := EncodeMotors(ms);
    assert s[..21] == EncodeMotor(ms[0]) && s[21..42] == EncodeMotor(ms[1]);
    assert s[42..63] == EncodeMotor(ms[2]) && s[63..84] == EncodeMotor(ms[3]);
    assert s[84..] == EncodeMotor(ms[4]);
    MotorDecodes(ms[0]);
    MotorDecodes(ms[1]);
    MotorDecodes(ms[2]);
    MotorDecodes(ms[3]);
    MotorDecodes(ms[4]);
  }

  lemma MotorsEncode(s: seq<byte>)
    requires |s| == MAX_MOTORS * MOTOR_SIZE
    ensures EncodeMotors(DecodeMotors(s)) == s
  {
    hide EncodeMotor, DecodeMotor;
    MotorEncodes(s[..21]);
    MotorEncodes(s[21..42]);
    MotorEncodes(s[42..63]);
    MotorEncodes(s[63..84]);
    MotorEncodes(s[84..]);
    assert s == s[..21] + s[21..42] + s[42..63] + s[63..84] + s[84..];
  }

  function EncodeChainHead(c: TeleChain): (s: seq<byte>)
    ensures |s| == 14
  {
    [c.chainId, c.nMotors, c.link, c.spiSeqEcho, c.spiResyncs] + Le32(c.slaveTimeUs)
    + Le16(c.cmdCrcErrors) + Le16(c.canTxErrors) + [c.spiTxArmFails]
  }

  function EncodeChain(c: TeleChain): (s: seq<byte>)
    requires |c.motors| == MAX_MOTORS
    ensures |s| == CHAIN_SIZE
  {
    EncodeChainHead(c) + EncodeMotors(c.motors)
  }

  function DecodeChain(s: seq<byte>): (c: TeleChain)
    requires |s| == CHAIN_SIZE
    ensures |c.motors| == MAX_MOTORS && c.nMotors == s[1]
  {
    TeleChain(s[0], s[1], s[2], s[3], s[4], Get32(s, 5), Get16(s, 9), Get16(s, 11), s[13],
              DecodeMotors(s[14..]))
  }

  lemma ChainDecodes(c: TeleChain)
    requires |c.motors| == MAX_MOTORS
    ensures DecodeChain(EncodeChain(c)) == c
  {
    hide EncodeMotors, DecodeMotors;
    assert EncodeChain(c)[14..] == EncodeMotors(c.motors);
    MotorsDecode(c.motors);
  }

  lemma ChainEncodes(s: seq<byte>)
    requires |s| == CHAIN_SIZE
    ensures EncodeChain(DecodeChain(s)) == s
  {
    hide EncodeMotors, DecodeMotors, Get16, Get32, Le16, Le32;
    MotorsEncode(s[14..]);
    Le32OfGet(s, 5);
    Le16OfGet(s, 9);
    Le16OfGet(s, 11);
    assert EncodeChainHead(DecodeChain(s)) == s[..14];
  }

  // ---- The payload ----

  function EncodeHead(t: RobotTelemetry): (s: seq<byte>)
    ensures |s| == HEAD_SIZE && s[18] == t.nChains
  {
    Le16(t.cycleId) + Le32(t.masterTimeUs) + Le16(t.lastCmdSeqRx) + Le16(t.cmdSeqActive)
    + Le16(t.cmdOnTime) + Le16(t.cmdLate) + Le16(t.cmdMissing) + Le16(t.cmdDuplicate)
    + [t.nChains, t.robotState]
  }

  function DecodeHead(s: seq<byte>, chains: seq<TeleChain>): (t: RobotTelemetry)
    requires |s| >= HEAD_SIZE
    ensures t.nChains == s[18] && t.chains == chains
  {
    RobotTelemetry(Get16(s, 0), Get32(s, 2), Get16(s, 6), Get16(s, 8), Get16(s, 10), Get16(s, 12),
                   Get16(s, 14), Get16(s, 16), s[18], s[19], chains)
  }

  function EncodeChains(chains: seq<TeleChain>): (s: seq<byte>)
    requires forall c :: c in chains ==> |c.motors| == MAX_MOTORS
    ensures |s| == CHAIN_SIZE * |chains|
  {
    if chains == [] then []
    else
      var n := |chains| - 1;
      assert chains[n] in chains;
      EncodeChains(chains[..n]) + EncodeChain(chains[n])
  }

  /** The payload the master sends: the head and the announced chains only. */
  function Serialise(t: RobotTelemetry): (s: seq<byte>)
    requires FixedSize(t) && t.nChains <= MAX_CHAINS
    ensures |s| == HEAD_SIZE + CHAIN_SIZE * t.nChains
  {
    EncodeHead(t) + EncodeChains(t.chains[..t.nChains])
  }

  function ChainBytes(p: seq<byte>, i: nat): (s: seq<byte>)
    requires HEAD_SIZE + CHAIN_SIZE * i + CHAIN_SIZE <= |p|
    ensures |s| == CHAIN_SIZE && s[1] == p[HEAD_SIZE + CHAIN_SIZE * i + 1]
  {
    p[HEAD_SIZE + CHAIN_SIZE * i..HEAD_SIZE + CHAIN_SIZE * i + CHAIN_SIZE]
  }

  /** A payload the host accepts. */
  predicate Acceptable(p: seq<byte>) {
    && |p| >= HEAD_SIZE
    && p[18] <= MAX_CHAINS
    && |p| >= HEAD_SIZE + CHAIN_SIZE * p[18]
    && forall i: nat :: i < p[18] ==> ChainBytes(p, i)[1] <= MAX_MOTORS
  }

  method ParseRobotTele(p: seq<byte>) returns (r: Option<RobotTelemetry>)
    ensures r.Some? <==> Acceptable(p)
    ensures r.Some? ==> r.value == Parsed(p)
  {
    hide DecodeChain, ChainBytes, DecodeHead, Parsed, Decoded;
    if |p| < HEAD_SIZE {
      return None;
    }
    var count := p[18];
    if count > MAX_CHAINS || |p| < HEAD_SIZE + CHAIN_SIZE * count {
      return None;
    }
    var chains := [ZERO_CHAIN, ZERO_CHAIN, ZERO_CHAIN, ZERO_CHAIN];
    NothingDecoded(p, chains);
    for i := 0 to count
      invariant Decoded(p, chains, i)
    {
      hide DecodeChain, ChainBytes, Acceptable, Parsed, Decoded;
      NextDecoded(p, chains, i);
      chains := chains[i := DecodeChain(ChainBytes(p, i))];
      if chains[i].nMotors > MAX_MOTORS {
        return None;
      }
    }
    AllDecoded(p, chains);
    return Some(DecodeHead(p, chains));
  }

  /** Long enough for the chains it announces, however many motors those claim to have. */
  predicate LongEnough(p: seq<byte>) {
    |p| >= HEAD_SIZE && p[18] <= MAX_CHAINS && |p| >= HEAD_SIZE + CHAIN_SIZE * p[18]
  }

  /** The first i chains are read and their motors fit; the others are still zero. */
  ghost predicate Decoded(p: seq<byte>, chains: seq<TeleChain>, i: nat)
    requires LongEnough(p) && i <= p[18]
  {
    && |chains| == MAX_CHAINS
    && (forall k: nat :: k < i ==> ChainBytes(p, k)[1] <= MAX_MOTORS)
    && forall k: nat :: k < MAX_CHAINS ==>
      chains[k] == if k < i then DecodeChain(ChainBytes(p, k)) else ZERO_CHAIN
  }

  lemma NothingDecoded(p: seq<byte>, chains: seq<TeleChain>)
    requires LongEnough(p) && chains == [ZERO_CHAIN, ZERO_CHAIN, ZERO_CHAIN, ZERO_CHAIN]
    ensures Decoded(p, chains, 0)
  {
  }

  lemma NextDecoded(p: seq<byte>, chains: seq<TeleChain>, i: nat)
    requires LongEnough(p) && i < p[18] && Decoded(p, chains, i)
    ensures |chains| == MAX_CHAINS
    ensures var c := DecodeChain(ChainBytes(p, i));
      if c.nMotors > MAX_MOTORS then !Acceptable(p) else Decoded(p, chains[i := c], i + 1)
  {
    hide DecodeChain, ChainBytes;
    assert DecodeChain(ChainBytes(p, i)).nMotors == ChainBytes(p, i)[1];
  }

  lemma AllDecoded(p: seq<byte>, chains: seq<TeleChain>)
    requires LongEnough(p) && Decoded(p, chains, p[18])
    ensures Acceptable(p) && Parsed(p) == DecodeHead(p, chains)
  {
    hide DecodeChain, ChainBytes, DecodeHead;
    assert chains == ParsedChains(p);
  }

  function ParsedChains(p: seq<byte>): seq<TeleChain>
    requires Acceptable(p)
  {
    seq(MAX_CHAINS, i requires 0 <= i < MAX_CHAINS =>
      if i < p[18] then DecodeChain(ChainBytes(p, i)) else ZERO_CHAIN)
  }

  function Parsed(p: seq<byte>): RobotTelemetry
    requires Acceptable(p)
  {
    DecodeHead(p, ParsedChains(p))
  }

  /** The record as sent: its unsent chains read as zero. */
  function Truncated(t: RobotTelemetry): RobotTelemetry
    requires FixedSize(t)
  {
    t.(chains := seq(MAX_CHAINS, i requires 0 <= i < MAX_CHAINS =>
      if i < t.nChains then t.chains[i] else ZERO_CHAIN))
  }

  lemma {:induction false} EncodedChainAt(chains: seq<TeleChain>, i: nat)
    requires (forall c :: c in chains ==> |c.motors| == MAX_MOTORS) && i < |chains|
    ensures EncodeChains(chains)[CHAIN_SIZE * i..CHAIN_SIZE * i + CHAIN_SIZE]
      == (assert chains[i] in chains; EncodeChain(chains[i]))
    decreases |chains|
  {
    hide EncodeChain;
    var n := |chains| - 1;
    if i == n {
    } else {
      EncodedChainAt(chains[..n], i);
    }
  }

  /** A serialised record parses back to itself, with every unsent chain zero. */
  lemma SerialiseParses(t: RobotTelemetry, extra: seq<byte>)
    requires FixedSize(t) && t.nChains <= MAX_CHAINS
    requires forall i: nat :: i < t.nChains ==> t.chains[i].nMotors <= MAX_MOTORS
    ensures Acceptable(Serialise(t) + extra)
    ensures Parsed(Serialise(t) + extra) == Truncated(t)
  {
    hide EncodeChain, DecodeChain, EncodeChains;
    var p := Serialise(t) + extra;
    forall i: nat | i < t.nChains
      ensures HEAD_SIZE + CHAIN_SIZE * i + CHAIN_SIZE <= |p|
      ensures DecodeChain(ChainBytes(p, i)) == t.chains[i] && ChainBytes(p, i)[1] <= MAX_MOTORS
    {
      var sent := t.chains[..t.nChains];
      EncodedChainAt(sent, i);
      assert t.chains[i] in t.chains && sent[i] == t.chains[i];
      assert ChainBytes(p, i) == EncodeChains(sent)[CHAIN_SIZE * i..CHAIN_SIZE * i + CHAIN_SIZE];
      ChainDecodes(t.chains[i]);
    }
    HeadDecodes(t, p);
    assert ParsedChains(p) == Truncated(t).chains;
  }

  lemma HeadDecodes(t: RobotTelemetry, p: seq<byte>)
    requires |p| >= HEAD_SIZE && p[..HEAD_SIZE] == EncodeHead(t)
    ensures DecodeHead(p, t.chains) == t
  {
    assert forall i :: 0 <= i < HEAD_SIZE ==> p[i] == EncodeHead(t)[i];
  }

  lemma HeadEncodes(p: seq<byte>, chains: seq<TeleChain>)
    requires |p| >= HEAD_SIZE
    ensures EncodeHead(DecodeHead(p, chains)) == p[..HEAD_SIZE]
  {
    hide Get16, Get32, Le16, Le32;
    Le16OfGet(p, 0);
    Le32OfGet(p, 2);
    Le16OfGet(p, 6);
    Le16OfGet(p, 8);
    Le16OfGet(p, 10);
    Le16OfGet(p, 12);
    Le16OfGet(p, 14);
    Le16OfGet(p, 16);
  }

  lemma {:induction false} EncodeDecodedChains(p: seq<byte>, n: nat)
    requires Acceptable(p) && n <= p[18]
    ensures forall c :: c in ParsedChains(p)[..n] ==> |c.motors| == MAX_MOTORS
    ensures EncodeChains(ParsedChains(p)[..n]) == p[HEAD_SIZE..HEAD_SIZE + CHAIN_SIZE * n]
  {
    hide EncodeChain, DecodeChain;
    var chains := ParsedChains(p);
    if n == 0 {
    } else {
      EncodeDecodedChains(p, n - 1);
      ChainEncodes(ChainBytes(p, n - 1));
      assert chains[..n][..n - 1] == chains[..n - 1];
      assert EncodeChain(chains[n - 1]) == ChainBytes(p, n - 1);
      var from, to := HEAD_SIZE + CHAIN_SIZE * (n - 1), HEAD_SIZE + CHAIN_SIZE * n;
      assert p[HEAD_SIZE..to] == p[HEAD_SIZE..from] + p[from..to];
    }
  }

  /** Whatever the host accepts, it loses nothing of: the record serialises back to the bytes it
      was read from. */
  lemma ParsedSerialises(p: seq<byte>)
    requires Acceptable(p)
    ensures FixedSize(Parsed(p)) && Parsed(p).nChains == p[18]
    ensures Serialise(Parsed(p)) == p[..HEAD_SIZE + CHAIN_SIZE * p[18]]
  {
    hide DecodeChain, EncodeChains, EncodeHead;
    assert forall c :: c in ParsedChains(p) ==> |c.motors| == MAX_MOTORS;
    HeadEncodes(p, ParsedChains(p));
    EncodeDecodedChains(p, p[18]);
  }

  // ---- The layout, by its offsets ----

  /** A little-endian two's complement number of two bytes. */
  predicate IsSigned(x: i16, low: byte, high: byte) {
    x + (if x < 0 then 0x1_0000 else 0) == Pair(low, high)
  }

  lemma SignedAt(s: seq<byte>, at: nat)
    requires at + 2 <= |s|
    ensures IsSigned(GetSigned(s, at), s[at], s[at + 1])
  {
  }

  /** Where the head of an accepted payload holds what. */
  lemma LayoutOfHead(p: seq<byte>)
    requires Acceptable(p)
    ensures var t := Parsed(p);
      && t.cycleId == Pair(p[0], p[1])
      && t.masterTimeUs == Pair(p[2], p[3]) + 0x1_0000 * Pair(p[4], p[5])
      && t.lastCmdSeqRx == Pair(p[6], p[7]) && t.cmdSeqActive == Pair(p[8], p[9])
      && t.nChains == p[18] <= 4 && t.robotState == p[19] && |p| >= 20 + 119 * p[18] as nat
  {
    hide DecodeChain, ChainBytes;
  }

  /** And the 21 bytes of a motor. */
  predicate MotorReads(m: TeleMotor, s: seq<byte>)
    requires |s| == 21
  {
    && IsSigned(m.pos, s[0], s[1]) && IsSigned(m.vel, s[2], s[3]) && IsSigned(m.tau, s[4], s[5])
    && m.tempC == s[6] && m.driveState == s[7] && m.driveFault == s[8] && m.rsMode == s[9]
    && m.rsFaultBits == s[10] && m.flags == s[11] && m.fbAgeMs == s[12]
    && m.lastAppliedSeq == Pair(s[17], s[18])
  }

  /** Where the announced chains are, 119 bytes each from byte 20 on, and their motors, from byte 14 of
      each on. */
  lemma LayoutOfChain(p: seq<byte>, c: nat, k: nat)
    requires Acceptable(p) && c < p[18] && k < 5
    ensures var chain := Parsed(p).chains[c];
      var at := 20 + 119 * c;
      && chain.chainId == p[at] && chain.nMotors == p[at + 1] && chain.link == p[at + 2]
      && MotorReads(chain.motors[k], p[at + 14 + 21 * k..at + 14 + 21 * k + 21])
  {
    hide GetSigned, Get32, DecodeMotor, MotorReads;
    var s := ChainBytes(p, c);
    MotorOfChain(s[14..], k);
    MotorFields(s[14..][21 * k..21 * k + 21]);
    Within(p, 20 + 119 * c, 20 + 119 * c + 119, 21 * k);
  }

  lemma Within(p: seq<byte>, from: nat, to: nat, i: nat)
    requires from + 14 + i + 21 <= to <= |p|
    ensures p[from..to][14..][i..i + 21] == p[from + 14 + i..from + 14 + i + 21]
  {
    var s := p[from..to][14..];
    assert s == p[from + 14..to];
    var a, b := s[i..i + 21], p[from + 14 + i..from + 14 + i + 21];
    assert forall x :: 0 <= x < 21 ==> a[x] == b[x];
  }

  lemma MotorOfChain(s: seq<byte>, k: nat)
    requires |s| == MAX_MOTORS * MOTOR_SIZE && k < MAX_MOTORS
    ensures DecodeMotors(s)[k] == DecodeMotor(s[21 * k..21 * k + 21])
  {
    hide DecodeMotor;
    assert s[84..] == s[84..105];
  }

  lemma MotorFields(s: seq<byte>)
    requires |s| == MOTOR_SIZE
    ensures MotorReads(DecodeMotor(s), s)
  {
    SignedAt(s, 0);
    SignedAt(s, 2);
    SignedAt(s, 4);
  }
}
