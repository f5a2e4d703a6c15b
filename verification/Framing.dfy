/** The wire frame: a 16-byte little-endian header followed by the payload. */
module Framing {
  import opened Wrappers
  import opened Bits
  import Crc16

  type u16 = x: nat | x < 0x1_0000
  type u32 = x: nat | x < 0x1_0000_0000

  const HEADER_SIZE := 16
  const MAX_PAYLOAD := 496
  const PROTOCOL_VERSION: byte := 10

  datatype MessageType = Ping | MasterStatus | SlaveStatus | RobotCmd | RobotTele {
    function Code(): u16 {
      match this
      case Ping => 1
      case MasterStatus => 2
      case SlaveStatus => 3
      case RobotCmd => 8
      case RobotTele => 9
    }
  }

  function TypeOf(code: u16): (t: Option<MessageType>)
    ensures t.Some? ==> t.value.Code() == code
    ensures t.None? ==> forall m: MessageType :: m.Code() != code
  {
    if code == 1 then Some(Ping)
    else if code == 2 then Some(MasterStatus)
    else if code == 3 then Some(SlaveStatus)
    else if code == 8 then Some(RobotCmd)
    else if code == 9 then Some(RobotTele)
    else None
  }

  // ---- Little-endian integers ----

  function Le16(x: u16): (s: seq<byte>)
    ensures |s| == 2
  {
    [x % 256, x / 256]
  }

  function Le32(x: u32): (s: seq<byte>)
    ensures |s| == 4
  {
    Le16(x % 0x1_0000) + Le16(x / 0x1_0000)
  }

  function Get16(s: seq<byte>, at: nat): u16
    requires at + 2 <= |s|
  {
    s[at] as nat + 256 * s[at + 1] as nat
  }

  function Get32(s: seq<byte>, at: nat): u32
    requires at + 4 <= |s|
  {
    Get16(s, at) as nat + 0x1_0000 * Get16(s, at + 2) as nat
  }

  // ---- The header ----

  datatype Header = Header(
    code: u16, seqNo: u16, src: byte, dst: byte, tsMs: u32, len: u16, verFlags: u16, crc: u16)

  function EncodeHeader(h: Header): (s: seq<byte>)
    ensures |s| == HEADER_SIZE
  {
    Le16(h.code) + Le16(h.seqNo) + [h.src, h.dst] + Le32(h.tsMs) + Le16(h.len) + Le16(h.verFlags)
    + Le16(h.crc)
  }

  function DecodeHeader(s: seq<byte>): Header
    requires |s| >= HEADER_SIZE
  {
    Header(Get16(s, 0), Get16(s, 2), s[4], s[5], Get32(s, 6), Get16(s, 10), Get16(s, 12),
           Get16(s, 14))
  }

  lemma HeaderRoundTrip(h: Header, tail: seq<byte>)
    ensures DecodeHeader(EncodeHeader(h) + tail) == h
  {
  }

  /** The header as the checksum sees it: its own field zeroed. */
  function ZeroCrc(header: seq<byte>): (z: seq<byte>)
    requires |header| == HEADER_SIZE
    ensures |z| == HEADER_SIZE
  {
    header[..14] + [0, 0]
  }

  function RegValue(c: Reg): u16 {
    Pow2Of8And16();
    Value(c)
  }

  lemma RegValueInjective(a: Reg, b: Reg)
    requires RegValue(a) == RegValue(b)
    ensures a == b
  {
    ToBitsValue(a);
    ToBitsValue(b);
  }

  function FrameCrc(header: seq<byte>, payload: seq<byte>): u16
    requires |header| == HEADER_SIZE
  {
    RegValue(Crc16.Crc(Crc16.Crc(Crc16.INIT, ZeroCrc(header)), payload))
  }

  lemma DecodePrefix(a: seq<byte>, b: seq<byte>)
    requires |a| >= HEADER_SIZE && |b| >= HEADER_SIZE && a[..HEADER_SIZE] == b[..HEADER_SIZE]
    ensures DecodeHeader(a) == DecodeHeader(b)
  {
    assert forall i :: 0 <= i < HEADER_SIZE ==> a[i] == a[..HEADER_SIZE][i] == b[..HEADER_SIZE][i];
  }

  lemma FrameCrcIgnoresItself(a: seq<byte>, b: seq<byte>, payload: seq<byte>)
    requires |a| == |b| == HEADER_SIZE && ZeroCrc(a) == ZeroCrc(b)
    ensures FrameCrc(a, payload) == FrameCrc(b, payload)
  {
    hide Crc16.Crc, Value;
  }

  // ---- Building ----

  /** The fields of a frame a sender chooses. */
  datatype Message = Message(code: u16, seqNo: u16, src: byte, dst: byte, tsMs: u32, payload: seq<byte>)
  {
    function HeaderWith(crc: u16): Header
      requires |payload| < 0x1_0000
    {
      Header(code, seqNo, src, dst, tsMs, |payload|, PROTOCOL_VERSION, crc)
    }

    /** The bytes of the complete frame. */
    function Bytes(): (s: seq<byte>)
      requires |payload| < 0x1_0000
      ensures |s| == HEADER_SIZE + |payload|
    {
      EncodeHeader(HeaderWith(FrameCrc(EncodeHeader(HeaderWith(0)), payload))) + payload
    }
  }

  lemma ZeroCrcOfHeader(m: Message, crc: u16)
    requires |m.payload| < 0x1_0000
    ensures ZeroCrc(EncodeHeader(m.HeaderWith(crc))) == EncodeHeader(m.HeaderWith(0))
  {
    assert EncodeHeader(m.HeaderWith(crc))[..14] == EncodeHeader(m.HeaderWith(0))[..14];
  }

  function Pair(low: nat, high: nat): nat {
    low + 256 * high
  }

  /** Where a header holds what; little-endian, of version 10. */
  predicate HeaderReads(m: Message, b: seq<byte>)
    requires |b| >= 16
  {
    && m.code == Pair(b[0], b[1]) && m.seqNo == Pair(b[2], b[3]) && m.src == b[4] && m.dst == b[5]
    && m.tsMs == Pair(b[6], b[7]) + 0x1_0000 * Pair(b[8], b[9])
    && |m.payload| == Pair(b[10], b[11]) && b[12] == 10 && b[13] == 0
  }

  /** A frame, byte by byte. */
  lemma FrameLayout(m: Message)
    requires |m.payload| < 0x1_0000
    ensures HeaderReads(m, m.Bytes()) && m.Bytes()[16..] == m.payload
  {
    hide Crc16.Crc, Value, EncodeHeader;
    var crc := FrameCrc(EncodeHeader(m.HeaderWith(0)), m.payload);
    HeaderBytes(m, crc);
    assert forall i :: 0 <= i < HEADER_SIZE ==> m.Bytes()[i] == EncodeHeader(m.HeaderWith(crc))[i];
  }

  /** Its checksum is that of the frame with the checksum's own two bytes zero. */
  lemma FrameCarriesItsCrc(m: Message)
    requires |m.payload| < 0x1_0000
    ensures var b := m.Bytes();
      Get16(b, 14) == RegValue(Crc16.Crc(Crc16.INIT, b[..14] + [0, 0] + b[16..]))
  {
    hide Crc16.Crc, Value, EncodeHeader, HeaderReads;
    var crc := FrameCrc(EncodeHeader(m.HeaderWith(0)), m.payload);
    var header, b := EncodeHeader(m.HeaderWith(crc)), m.Bytes();
    HeaderBytes(m, crc);
    ZeroCrcOfHeader(m, crc);
    ZeroCrcOfHeader(m, 0);
    Crc16.CrcAppend(Crc16.INIT, ZeroCrc(header), m.payload);
    assert b[14] == header[14] && b[15] == header[15];
    assert b[..14] + [0, 0] + b[16..] == ZeroCrc(header) + m.payload;
  }

  lemma HeaderBytes(m: Message, crc: u16)
    requires |m.payload| < 0x1_0000
    ensures HeaderReads(m, EncodeHeader(m.HeaderWith(crc)))
    ensures Get16(EncodeHeader(m.HeaderWith(crc)), 14) == crc
  {
  }

  /** Copies a header and its payload to the front of the buffer. */
  method PutFrame(out: array<byte>, header: seq<byte>, payload: seq<byte>)
    requires |header| == HEADER_SIZE && HEADER_SIZE + |payload| <= out.Length
    modifies out
    ensures out[..] == header + payload + old(out[..])[HEADER_SIZE + |payload|..]
  {
    forall i | 0 <= i < HEADER_SIZE {
      out[i] := header[i];
    }
    forall i | 0 <= i < |payload| {
      out[HEADER_SIZE + i] := payload[i];
    }
  }

  /** The host's builder. `out` keeps every byte past the frame, and all of them on refusal. */
  method BuildFrame(table: seq<Reg>, type_: MessageType, seqNo: u16, src: byte, dst: byte,
                    tsMs: u32, payload: seq<byte>, out: array<byte>)
    returns (size: Option<nat>)
    requires Crc16.IsTable(table)
    modifies out
    ensures size.None? <==> |payload| > MAX_PAYLOAD || out.Length < HEADER_SIZE + |payload|
    ensures size.None? ==> out[..] == old(out[..])
    ensures size.Some? ==>
      var frame := Message(type_.Code(), seqNo, src, dst, tsMs, payload).Bytes();
      size.value == |frame| && out[..] == frame + old(out[..])[|frame|..]
  {
    hide Crc16.Crc, Crc16.LongDivide, Value, EncodeHeader;
    var total := HEADER_SIZE + |payload|;
    if |payload| > MAX_PAYLOAD || out.Length < total {
      return None;
    }
    var message := Message(type_.Code(), seqNo, src, dst, tsMs, payload);
    var zeroed := EncodeHeader(message.HeaderWith(0));
    ZeroCrcOfHeader(message, 0);
    var crc := Crc16.ComputeCrc(table, zeroed, Crc16.INIT);
    crc := Crc16.ComputeCrc(table, payload, crc);
    var header := EncodeHeader(message.HeaderWith(RegValue(crc)));
    PutFrame(out, header, payload);
    assert out[..] == message.Bytes() + old(out[..])[total..];
    size := Some(total);
  }

  /** The first n bytes of a header and payload. */
  function Prefix(zeroed: seq<byte>, payload: seq<byte>, n: nat): (p: seq<byte>)
    requires n <= |zeroed| + |payload|
    ensures |p| == n
  {
    (zeroed + payload)[..n]
  }

  /** What the firmware's builder writes: its checksum covers only the 16-bit total. */
  function ProtoBytes(m: Message): (s: seq<byte>)
    requires |m.payload| < 0x1_0000
    ensures |s| == HEADER_SIZE + |m.payload|
  {
    var zeroed := EncodeHeader(m.HeaderWith(0));
    var total := (HEADER_SIZE + |m.payload|) % 0x1_0000;
    EncodeHeader(m.HeaderWith(RegValue(Crc16.Crc(Crc16.INIT, Prefix(zeroed, m.payload, total)))))
    + m.payload
  }

  /** Which is the host builder's frame whenever the total does not wrap. */
  lemma ProtoBytesAreTheFrame(m: Message)
    requires HEADER_SIZE + |m.payload| < 0x1_0000
    ensures ProtoBytes(m) == m.Bytes()
  {
    hide Crc16.Crc, Value, EncodeHeader;
    var zeroed := EncodeHeader(m.HeaderWith(0));
    assert Prefix(zeroed, m.payload, HEADER_SIZE + |m.payload|) == zeroed + m.payload;
    Crc16.CrcAppend(Crc16.INIT, zeroed, m.payload);
    ZeroCrcOfHeader(m, 0);
  }

  /** The firmware's builder. The total is a 16-bit number and is all that is compared with the
      capacity; the memory behind `out` must hold what is copied. */
  method ProtoBuild(table: seq<Reg>, out: array<byte>, cap: u16, code: u16, seqNo: u16, src: byte,
                    dst: byte, tsMs: u32, payload: seq<byte>)
    returns (total: u16)
    requires Crc16.IsTable(table) && |payload| < 0x1_0000
    requires (HEADER_SIZE + |payload|) % 0x1_0000 <= cap ==> HEADER_SIZE + |payload| <= out.Length
    modifies out
    ensures var refused := (HEADER_SIZE + |payload|) % 0x1_0000 > cap;
      && total == (if refused then 0 else (HEADER_SIZE + |payload|) % 0x1_0000)
      && (refused ==> out[..] == old(out[..]))
      && (!refused ==>
        var written := ProtoBytes(Message(code, seqNo, src, dst, tsMs, payload));
        out[..] == written + old(out[..])[|written|..])
    ensures HEADER_SIZE + |payload| <= cap ==>
      var frame := Message(code, seqNo, src, dst, tsMs, payload).Bytes();
      total == |frame| && out[..] == frame + old(out[..])[|frame|..]
  {
    hide Crc16.Crc, Crc16.LongDivide, Value, EncodeHeader, Le16, ProtoBytes;
    total := (HEADER_SIZE + |payload|) % 0x1_0000;
    if total > cap {
      return 0;
    }
    var message := Message(code, seqNo, src, dst, tsMs, payload);
    ProtoFill(table, out, message);
    if HEADER_SIZE + |payload| < 0x1_0000 {
      ProtoBytesAreTheFrame(message);
    }
  }

  /** The header with its checksum zero, the payload, and then the checksum of what the 16-bit total
      covers. */
  method ProtoFill(table: seq<Reg>, out: array<byte>, message: Message)
    requires Crc16.IsTable(table) && |message.payload| < 0x1_0000
    requires HEADER_SIZE + |message.payload| <= out.Length
    modifies out
    ensures out[..] == ProtoBytes(message) + old(out[..])[HEADER_SIZE + |message.payload|..]
  {
    hide Crc16.Crc, Crc16.LongDivide, Value, EncodeHeader, Le16, ProtoBytes, Prefix;
    var total := (HEADER_SIZE + |message.payload|) % 0x1_0000;
    var header := EncodeHeader(message.HeaderWith(0));
    ghost var rest := old(out[..])[HEADER_SIZE + |message.payload|..];
    PutFrame(out, header, message.payload);
    PrefixOf(header, message.payload, rest, total);
    var covered := out[..total];
    assert covered == (header + message.payload + rest)[..total];
    var crc := Crc16.ComputeCrc(table, covered, Crc16.INIT);
    PutCrc(out, header, RegValue(crc));
    ProtoBytesFilled(message, rest, crc);
  }

  lemma PrefixOf(header: seq<byte>, payload: seq<byte>, rest: seq<byte>, n: nat)
    requires n <= |header| + |payload|
    ensures (header + payload + rest)[..n] == Prefix(header, payload, n)
  {
    assert header + payload + rest == (header + payload) + rest;
  }

  lemma ProtoBytesFilled(m: Message, rest: seq<byte>, crc: Reg)
    requires |m.payload| < 0x1_0000
    requires var zeroed := EncodeHeader(m.HeaderWith(0));
      crc == Crc16.Crc(
        Crc16.INIT, Prefix(zeroed, m.payload, (HEADER_SIZE + |m.payload|) % 0x1_0000))
    ensures var zeroed := EncodeHeader(m.HeaderWith(0));
      zeroed[..14] + Le16(RegValue(crc)) + (zeroed + m.payload + rest)[HEADER_SIZE..] == ProtoBytes(m) + rest
  {
    hide Crc16.Crc, Value, EncodeHeader, Le16, Prefix;
    HeaderFields(m, RegValue(crc));
    var zeroed := EncodeHeader(m.HeaderWith(0));
    assert (zeroed + m.payload + rest)[HEADER_SIZE..] == m.payload + rest;
    assert ProtoBytes(m) == EncodeHeader(m.HeaderWith(RegValue(crc))) + m.payload;
  }

  /** Writes the checksum into the header already in the buffer. */
  method PutCrc(out: array<byte>, header: seq<byte>, crc: u16)
    requires |header| == HEADER_SIZE <= out.Length && out[..HEADER_SIZE] == header
    modifies out
    ensures out[..] == header[..14] + Le16(crc) + old(out[..])[HEADER_SIZE..]
  {
    var field := Le16(crc);
    out[14], out[15] := field[0], field[1];
    assert out[..HEADER_SIZE] == header[..14] + field;
    assert out[..] == out[..HEADER_SIZE] + out[HEADER_SIZE..];
    assert out[HEADER_SIZE..] == old(out[..])[HEADER_SIZE..];
  }

  lemma HeaderFields(m: Message, crc: u16)
    requires |m.payload| < 0x1_0000
    ensures EncodeHeader(m.HeaderWith(crc)) == EncodeHeader(m.HeaderWith(0))[..14] + Le16(crc)
  {
  }

  // ---- Judging ----

  datatype Verdict = NeedMore | NotHere | Whole(total: nat)

  /** What the host makes of the start of a buffer. */
  function Judge(s: seq<byte>): (v: Verdict)
    ensures v.NeedMore? ==> |s| < HEADER_SIZE + MAX_PAYLOAD
    ensures v.NotHere? ==> |s| >= HEADER_SIZE
    ensures v.Whole? ==> HEADER_SIZE <= v.total <= HEADER_SIZE + MAX_PAYLOAD && v.total <= |s|
  {
    if |s| < HEADER_SIZE then NeedMore
    else
      var h := DecodeHeader(s);
      if TypeOf(h.code).None? || h.len > MAX_PAYLOAD then NotHere
      else if |s| < HEADER_SIZE + h.len then NeedMore
      else if FrameCrc(s[..HEADER_SIZE], s[HEADER_SIZE..HEADER_SIZE + h.len]) != h.crc then NotHere
      else Whole(HEADER_SIZE + h.len)
  }

  datatype FirmwareVerdict = FwNeedMore | FwResync | FwFrame(code: byte, payload: seq<byte>, consumed: nat)

  /** What the firmware's scanner makes of it: the type is truncated to a byte and the version is
      part of plausibility. */
  function FirmwareJudge(s: seq<byte>): FirmwareVerdict {
    if |s| < HEADER_SIZE then FwNeedMore
    else
      var h := DecodeHeader(s);
      if TypeOf(h.code % 256).None? || h.verFlags % 256 != PROTOCOL_VERSION || h.len > MAX_PAYLOAD
      then FwResync
      else if |s| < HEADER_SIZE + h.len then FwNeedMore
      else
        var payload := s[HEADER_SIZE..HEADER_SIZE + h.len];
        if FrameCrc(s[..HEADER_SIZE], payload) != h.crc then FwResync
        else FwFrame(h.code % 256, payload, HEADER_SIZE + h.len)
  }

  /** A verdict other than "need more" does not change when more bytes arrive. */
  lemma JudgeStable(s: seq<byte>, t: seq<byte>)
    requires !Judge(s).NeedMore?
    ensures Judge(s + t) == Judge(s)
  {
    hide FrameCrc;
    assert DecodeHeader(s + t) == DecodeHeader(s);
    assert (s + t)[..HEADER_SIZE] == s[..HEADER_SIZE];
    var n := DecodeHeader(s).len;
    if |s| >= HEADER_SIZE + n {
      assert (s + t)[HEADER_SIZE..HEADER_SIZE + n] == s[HEADER_SIZE..HEADER_SIZE + n];
    }
  }

  /** Header, payload and checksum of a built frame, at the start of any buffer. */
  lemma BuiltFrame(m: Message, tail: seq<byte>)
    requires |m.payload| < 0x1_0000
    ensures var s := m.Bytes() + tail; var h := DecodeHeader(s);
      && h == m.HeaderWith(h.crc)
      && s[HEADER_SIZE..HEADER_SIZE + |m.payload|] == m.payload
      && FrameCrc(s[..HEADER_SIZE], m.payload) == h.crc
  {
    hide FrameCrc;
    var crc := FrameCrc(EncodeHeader(m.HeaderWith(0)), m.payload);
    var header := EncodeHeader(m.HeaderWith(crc));
    var s := m.Bytes() + tail;
    assert s == header + (m.payload + tail);
    HeaderRoundTrip(m.HeaderWith(crc), m.payload + tail);
    assert s[..HEADER_SIZE] == header;
    ZeroCrcOfHeader(m, crc);
    ZeroCrcOfHeader(m, 0);
    FrameCrcIgnoresItself(header, EncodeHeader(m.HeaderWith(0)), m.payload);
  }

  /** The host accepts a built frame exactly when its type is known and its payload fits. */
  lemma HostAcceptsBuilt(m: Message, tail: seq<byte>)
    requires |m.payload| < 0x1_0000
    ensures Judge(m.Bytes() + tail) == Whole(HEADER_SIZE + |m.payload|)
      <==> TypeOf(m.code).Some? && |m.payload| <= MAX_PAYLOAD
  {
    BuiltFrame(m, tail);
  }

  /** The firmware accepts one exactly when the type's low byte is known and the payload fits, so
      it accepts every frame the host can build. */
  lemma FirmwareAcceptsBuilt(m: Message, tail: seq<byte>)
    requires |m.payload| < 0x1_0000
    ensures FirmwareJudge(m.Bytes() + tail)
        == FwFrame(m.code % 256, m.payload, HEADER_SIZE + |m.payload|)
      <==> TypeOf(m.code % 256).Some? && |m.payload| <= MAX_PAYLOAD
  {
    BuiltFrame(m, tail);
  }

  /** On any buffer at all, the host takes a frame of this version exactly when the firmware does and
      its type fits a byte; and then both take the same length. */
  lemma FirmwareAgreesWithHost(s: seq<byte>)
    requires |s| >= HEADER_SIZE
    ensures Judge(s).Whole? && DecodeHeader(s).verFlags % 256 == PROTOCOL_VERSION
      <==> FirmwareJudge(s).FwFrame? && DecodeHeader(s).code < 256
    ensures FirmwareJudge(s).FwFrame? && Judge(s).Whole? ==>
      FirmwareJudge(s).consumed == Judge(s).total
  {
    hide FrameCrc;
  }

  /** They do not agree on every frame: this type is MSG_PING to the firmware and line noise to
      the host. */
  lemma TypeHighByteDiffers()
    ensures var s := Message(0x101, 0, 2, 1, 0, []).Bytes();
      FirmwareJudge(s).FwFrame? && Judge(s).NotHere?
  {
    hide FrameCrc;
    var m := Message(0x101, 0, 2, 1, 0, []);
    BuiltFrame(m, []);
    assert m.Bytes() + [] == m.Bytes();
  }

  /** The same corruption changes the frame checksum. */
  lemma CorruptPayloadChangesCrc(header: seq<byte>, sent: seq<byte>, received: seq<byte>, at: nat, width: nat)
    requires |header| == HEADER_SIZE && |received| == |sent| && received != sent && width <= 16
    requires Crc16.AgreeOutside(MessageBits(sent), MessageBits(received), at, width)
    ensures FrameCrc(header, received) != FrameCrc(header, sent)
  {
    hide Crc16.Crc, Value;
    var c := Crc16.Crc(Crc16.INIT, ZeroCrc(header));
    Crc16.BurstChangesCrc(c, sent, received, at, width);
    if RegValue(Crc16.Crc(c, received)) == RegValue(Crc16.Crc(c, sent)) {
      RegValueInjective(Crc16.Crc(c, received), Crc16.Crc(c, sent));
    }
  }

  /** Corruption confined to 16 consecutive bits of the payload is rejected at the frame's own
      offset, whatever follows it in the buffer. */
  lemma CorruptPayloadRejected(m: Message, received: seq<byte>, tail: seq<byte>, at: nat, width: nat)
    requires |m.payload| <= MAX_PAYLOAD && |received| == |m.payload| && received != m.payload
    requires TypeOf(m.code).Some? && width <= 16
    requires Crc16.AgreeOutside(MessageBits(m.payload), MessageBits(received), at, width)
    ensures Judge(m.Bytes()[..HEADER_SIZE] + received + tail).NotHere?
  {
    hide FrameCrc, DecodeHeader, EncodeHeader, ZeroCrc, MessageBits, Crc16.AgreeOutside;
    BuiltFrame(m, []);
    var header := m.Bytes()[..HEADER_SIZE];
    assert (m.Bytes() + [])[..HEADER_SIZE] == header;
    var s := header + received + tail;
    assert s[..HEADER_SIZE] == header;
    DecodePrefix(s, m.Bytes() + []);
    assert s[HEADER_SIZE..HEADER_SIZE + |received|] == received;
    CorruptPayloadChangesCrc(header, m.payload, received, at, width);
  }
}
