/** The byte stream as one left-to-right scan: the reference the buffered scanner refines. */
module Stream {
  import opened Bits
  import opened Framing

  datatype Frame = Frame(kind: MessageType, seqNo: u16, tsMs: u32, payload: seq<byte>)

  /** What one stretch of the stream turned out to be. */
  datatype Event =
    | Junk(dropped: byte)
    | Good(frame: Frame, raw: seq<byte>)
    | Foreign(version: byte, raw: seq<byte>)
  {
    function Raw(): seq<byte> {
      match this
      case Junk(b) => [b]
      case Good(_, raw) => raw
      case Foreign(_, raw) => raw
    }
  }

  /** The event at the start of a buffer that needs no more bytes. */
  function EventAt(s: seq<byte>): (e: Event)
    requires !Judge(s).NeedMore?
    ensures e.Raw() != [] && e.Raw() <= s
    ensures e.Junk? <==> Judge(s).NotHere?
  {
    match Judge(s)
    case NotHere => Junk(s[0])
    case Whole(total) =>
      var h := DecodeHeader(s);
      var version: byte := h.verFlags % 256;
      if version != PROTOCOL_VERSION then Foreign(version, s[..total])
      else Good(Frame(TypeOf(h.code).value, h.seqNo, h.tsMs, s[HEADER_SIZE..total]), s[..total])
  }

  /** The whole scan: its events in order, and the tail that waits for more bytes. */
  function Parse(s: seq<byte>): (p: (seq<Event>, seq<byte>))
    ensures Judge(p.1).NeedMore? && |p.1| <= |s|
    decreases |s|
  {
    if Judge(s).NeedMore? then ([], s)
    else
      var e := EventAt(s);
      var p := Parse(s[|e.Raw()|..]);
      ([e] + p.0, p.1)
  }

  function Bytes(events: seq<Event>): seq<byte> {
    if events == [] then [] else events[0].Raw() + Bytes(events[1..])
  }

  lemma {:induction false} BytesAppend(a: seq<Event>, b: seq<Event>)
    ensures Bytes(a + b) == Bytes(a) + Bytes(b)
  {
    hide Event.Raw;
    if a == [] {
      assert a + b == b;
    } else {
      BytesAppend(a[1..], b);
      assert (a + b)[1..] == a[1..] + b && (a + b)[0] == a[0];
      assert Bytes(a + b) == a[0].Raw() + (Bytes(a[1..]) + Bytes(b));
    }
  }

  lemma BytesSnoc(log: seq<Event>, e: Event)
    ensures Bytes(log + [e]) == Bytes(log) + e.Raw()
  {
    BytesAppend(log, [e]);
  }

  // ---- Counters ----

  function JunkCount(events: seq<Event>): (n: nat) {
    if events == [] then 0
    else JunkCount(events[..|events| - 1]) + (if events[|events| - 1].Junk? then 1 else 0)
  }

  function ForeignCount(events: seq<Event>): (n: nat) {
    if events == [] then 0
    else ForeignCount(events[..|events| - 1]) + (if events[|events| - 1].Foreign? then 1 else 0)
  }

  ghost predicate RunStart(events: seq<Event>, i: nat) {
    i < |events| && events[i].Junk? && (i == 0 || !events[i - 1].Junk?)
  }

  /** The maximal runs of dropped bytes. */
  ghost function RunStarts(events: seq<Event>): set<nat> {
    set i: nat | i < |events| && RunStart(events, i)
  }

  ghost function LastForeign(events: seq<Event>): byte {
    if events == [] then 0
    else
      var last := events[|events| - 1];
      if last.Foreign? then last.version else LastForeign(events[..|events| - 1])
  }

  function Frames(events: seq<Event>): seq<Frame> {
    if events == [] then []
    else
      Frames(events[..|events| - 1]) +
      (if events[|events| - 1].Good? then [events[|events| - 1].frame] else [])
  }

  lemma FramesOfNothing()
    ensures Frames([]) == []
  {
  }

  lemma {:induction false} FramesAppend(a: seq<Event>, b: seq<Event>)
    ensures Frames(a + b) == Frames(a) + Frames(b)
  {
    if b == [] {
      assert a + b == a;
    } else {
      FramesAppend(a, b[..|b| - 1]);
      assert (a + b)[..|a + b| - 1] == a + b[..|b| - 1];
    }
  }

  /** How one more event moves every counter. */
  lemma CountersStep(log: seq<Event>, e: Event)
    ensures var next := log + [e];
      && JunkCount(next) == JunkCount(log) + (if e.Junk? then 1 else 0)
      && ForeignCount(next) == ForeignCount(log) + (if e.Foreign? then 1 else 0)
      && LastForeign(next) == (if e.Foreign? then e.version else LastForeign(log))
      && |RunStarts(next)| == |RunStarts(log)| +
        (if e.Junk? && (log == [] || !log[|log| - 1].Junk?) then 1 else 0)
  {
    hide RunStarts;
    var next := log + [e];
    assert next[..|next| - 1] == log;
    RunStartsStep(log, e);
  }

  lemma FramesStep(log: seq<Event>, e: Event)
    ensures Frames(log + [e]) == Frames(log) + (if e.Good? then [e.frame] else [])
  {
    assert (log + [e])[..|log|] == log;
  }

  lemma RunStartsStep(log: seq<Event>, e: Event)
    ensures |RunStarts(log + [e])| == |RunStarts(log)| +
      (if e.Junk? && (log == [] || !log[|log| - 1].Junk?) then 1 else 0)
  {
    var next := log + [e];
    assert forall i: nat :: i < |log| ==> RunStart(next, i) == RunStart(log, i);
    if e.Junk? && (log == [] || !log[|log| - 1].Junk?) {
      assert RunStarts(next) == RunStarts(log) + {|log|};
    } else {
      assert RunStarts(next) == RunStarts(log);
    }
  }

  // ---- Properties of the scan ----

  lemma EventStable(s: seq<byte>, t: seq<byte>)
    requires !Judge(s).NeedMore?
    ensures Judge(s + t) == Judge(s) && EventAt(s + t) == EventAt(s)
  {
    hide FrameCrc;
    JudgeStable(s, t);
    if Judge(s).Whole? {
      var total := Judge(s).total;
      assert (s + t)[..total] == s[..total];
      assert (s + t)[..HEADER_SIZE] == s[..HEADER_SIZE];
      DecodePrefix(s + t, s);
      assert (s + t)[HEADER_SIZE..total] == s[HEADER_SIZE..total];
    }
  }

  lemma ParseStep(s: seq<byte>, rest: seq<byte>)
    requires !Judge(s).NeedMore? && s == EventAt(s).Raw() + rest
    ensures Parse(s) == ([EventAt(s)] + Parse(rest).0, Parse(rest).1)
  {
    hide Judge, EventAt;
    assert s[|EventAt(s).Raw()|..] == rest;
  }

  lemma ParseNothing(s: seq<byte>)
    requires Judge(s).NeedMore?
    ensures Parse(s) == ([], s)
  {
    hide Judge, EventAt;
  }

  /** Scanning can stop anywhere and resume with the bytes it left: the cut does not show. */
  lemma {:induction false} ParseAppend(s: seq<byte>, t: seq<byte>)
    ensures Parse(s + t) == (Parse(s).0 + Parse(Parse(s).1 + t).0, Parse(Parse(s).1 + t).1)
    decreases |s|
  {
    hide Judge, EventAt, Parse;
    if Judge(s).NeedMore? {
      ParseNothing(s);
      assert [] + Parse(s + t).0 == Parse(s + t).0;
    } else {
      var e := EventAt(s);
      var rest := s[|e.Raw()|..];
      EventStable(s, t);
      ParseStep(s, rest);
      assert s + t == e.Raw() + (rest + t);
      ParseStep(s + t, rest + t);
      ParseAppend(rest, t);
      var p := Parse(rest);
      assert [e] + (p.0 + Parse(p.1 + t).0) == ([e] + p.0) + Parse(p.1 + t).0;
    }
  }

  /** No byte is lost, invented or reordered. */
  lemma {:induction false} ParseConserves(s: seq<byte>)
    ensures Bytes(Parse(s).0) + Parse(s).1 == s
    decreases |s|
  {
    hide Judge, EventAt, Parse;
    if Judge(s).NeedMore? {
      ParseNothing(s);
    } else {
      var e := EventAt(s);
      var rest := s[|e.Raw()|..];
      ParseStep(s, rest);
      ParseConserves(rest);
      var p := Parse(rest);
      assert ([e] + p.0)[1..] == p.0;
      assert s == e.Raw() + rest;
      assert Bytes(Parse(s).0) == e.Raw() + Bytes(p.0);
    }
  }

  /** Part of a stream scanned into `log`, the rest of it in `pending`. */
  ghost predicate Scanned(stream: seq<byte>, log: seq<Event>, pending: seq<byte>) {
    && Parse(stream) == (log + Parse(pending).0, Parse(pending).1)
    && stream == Bytes(log) + pending
  }

  lemma ScannedEmpty()
    ensures Scanned([], [], []) && Judge([]).NeedMore?
  {
    assert Parse([]) == ([], []);
    assert [] + Parse([]).0 == Parse([]).0;
  }

  lemma ScannedMore(stream: seq<byte>, log: seq<Event>, pending: seq<byte>, more: seq<byte>)
    requires Scanned(stream, log, pending)
    ensures Scanned(stream + more, log, pending + more)
  {
    hide Parse, Bytes;
    ParseAppend(stream, more);
    ParseAppend(pending, more);
    var p := Parse(pending);
    assert (log + p.0) + Parse(p.1 + more).0 == log + (p.0 + Parse(p.1 + more).0);
  }

  lemma ScannedStep(stream: seq<byte>, log: seq<Event>, pending: seq<byte>, rest: seq<byte>)
    requires Scanned(stream, log, pending) && !Judge(pending).NeedMore?
    requires pending == EventAt(pending).Raw() + rest
    ensures Scanned(stream, log + [EventAt(pending)], rest)
  {
    hide Parse, Bytes, Judge, EventAt;
    ParseStep(pending, rest);
    BytesSnoc(log, EventAt(pending));
    assert (log + [EventAt(pending)]) + Parse(rest).0 == log + ([EventAt(pending)] + Parse(rest).0);
    assert (Bytes(log) + EventAt(pending).Raw()) + rest == Bytes(log) + (EventAt(pending).Raw() + rest);
  }

  // ---- Round trip ----

  predicate Sendable(m: Message) {
    TypeOf(m.code).Some? && |m.payload| <= MAX_PAYLOAD
  }

  function FrameOf(m: Message): Frame
    requires Sendable(m)
  {
    Frame(TypeOf(m.code).value, m.seqNo, m.tsMs, m.payload)
  }

  function WireOf(ms: seq<Message>): seq<byte>
    requires forall m :: m in ms ==> Sendable(m)
  {
    if ms == [] then [] else assert Sendable(ms[0]); ms[0].Bytes() + WireOf(ms[1..])
  }

  function EventsOf(ms: seq<Message>): seq<Event>
    requires forall m :: m in ms ==> Sendable(m)
  {
    seq(|ms|, i requires 0 <= i < |ms| => Good(FrameOf(ms[i]), ms[i].Bytes()))
  }

  lemma BuiltFrameIsGood(m: Message, tail: seq<byte>)
    requires Sendable(m)
    ensures var s := m.Bytes() + tail;
      Judge(s).Whole? && EventAt(s) == Good(FrameOf(m), m.Bytes())
  {
    hide FrameCrc;
    BuiltFrame(m, tail);
    HostAcceptsBuilt(m, tail);
    var s := m.Bytes() + tail;
    assert s[..HEADER_SIZE + |m.payload|] == m.Bytes();
  }

  /** Back-to-back frames from either builder scan back to exactly what was sent. */
  lemma {:induction false} ParseInvertsBuild(ms: seq<Message>)
    requires forall m :: m in ms ==> Sendable(m)
    ensures Parse(WireOf(ms)) == (EventsOf(ms), [])
    decreases |ms|
  {
    hide Judge, EventAt, Message.Bytes;
    if ms == [] {
      assert Parse([]) == ([], []);
    } else {
      assert ms[0] in ms;
      BuiltFrameIsGood(ms[0], WireOf(ms[1..]));
      ParseInvertsBuild(ms[1..]);
      ParseStep(WireOf(ms), WireOf(ms[1..]));
      assert EventsOf(ms) == [Good(FrameOf(ms[0]), ms[0].Bytes())] + EventsOf(ms[1..]);
    }
  }

  // ---- Resynchronisation ----

  function JunkOf(s: seq<byte>): seq<Event> {
    seq(|s|, i requires 0 <= i < |s| => Junk(s[i]))
  }

  /** If no offset of the garbage starts a CRC-valid frame, and the frame plus what follows it is
      at least 511 bytes, the scanner drops exactly the garbage and then finds the frame. */
  lemma {:induction false} Resynchronises(garbage: seq<byte>, m: Message, tail: seq<byte>)
    requires Sendable(m) && |m.Bytes()| + |tail| >= HEADER_SIZE + MAX_PAYLOAD - 1
    requires forall i :: 0 <= i < |garbage| ==>
      !Judge((garbage + m.Bytes() + tail)[i..]).Whole?
    ensures Parse(garbage + m.Bytes() + tail)
      == (JunkOf(garbage) + [Good(FrameOf(m), m.Bytes())] + Parse(tail).0, Parse(tail).1)
    decreases |garbage|
  {
    hide Judge, EventAt, Message.Bytes, Parse;
    var s := garbage + m.Bytes() + tail;
    var found := [Good(FrameOf(m), m.Bytes())];
    if garbage == [] {
      assert s == m.Bytes() + tail;
      BuiltFrameIsGood(m, tail);
      ParseStep(s, tail);
      assert JunkOf(garbage) + found + Parse(tail).0 == found + Parse(tail).0;
    } else {
      var rest := garbage[1..] + m.Bytes() + tail;
      assert s == [garbage[0]] + rest;
      assert s[0..] == s;
      forall i | 0 <= i < |garbage| - 1
        ensures !Judge(rest[i..]).Whole?
      {
        assert s[i + 1..] == rest[i..];
      }
      Resynchronises(garbage[1..], m, tail);
      LongEnoughToJudge(s);
      ParseStep(s, rest);
      assert JunkOf(garbage) + found + Parse(tail).0
        == [Junk(garbage[0])] + (JunkOf(garbage[1..]) + found + Parse(tail).0);
    }
  }

  lemma LongEnoughToJudge(s: seq<byte>)
    requires |s| >= HEADER_SIZE + MAX_PAYLOAD && !Judge(s).Whole?
    ensures Judge(s).NotHere? && EventAt(s) == Junk(s[0])
  {
    hide FrameCrc;
  }

  /** The garbage counts as one run of its own, whatever follows the frame after it. */
  lemma {:induction false} JunkIsOneRun(garbage: seq<byte>, e: Event, rest: seq<Event>)
    requires garbage != [] && !e.Junk?
    ensures |RunStarts(JunkOf(garbage) + [e] + rest)| == 1 + |RunStarts(rest)|
    decreases |rest|
  {
    hide RunStarts, RunStart;
    var head := JunkOf(garbage) + [e];
    if rest == [] {
      JunkAlone(garbage, e);
      assert head + [] == head;
      NoRuns();
    } else {
      var last := |rest| - 1;
      JunkIsOneRun(garbage, e, rest[..last]);
      RunStartsStep(head + rest[..last], rest[last]);
      RunStartsStep(rest[..last], rest[last]);
      assert head + rest == head + rest[..last] + [rest[last]];
      assert rest == rest[..last] + [rest[last]];
    }
  }

  lemma JunkAlone(garbage: seq<byte>, e: Event)
    requires garbage != [] && !e.Junk?
    ensures |RunStarts(JunkOf(garbage) + [e])| == 1
  {
    var events := JunkOf(garbage) + [e];
    assert RunStart(events, 0);
    assert RunStarts(events) == {0};
  }

  lemma NoRuns()
    ensures |RunStarts([])| == 0
  {
    assert RunStarts([]) == {};
  }

  lemma {:induction false} JunkCountAppend(a: seq<Event>, b: seq<Event>)
    ensures JunkCount(a + b) == JunkCount(a) + JunkCount(b)
    decreases |b|
  {
    if b == [] {
      assert a + b == a;
    } else {
      JunkCountAppend(a, b[..|b| - 1]);
      assert (a + b)[..|a + b| - 1] == a + b[..|b| - 1];
    }
  }

  lemma {:induction false} JunkHoldsNothing(garbage: seq<byte>)
    ensures JunkCount(JunkOf(garbage)) == |garbage| && Frames(JunkOf(garbage)) == []
    decreases |garbage|
  {
    if garbage == [] {
    } else {
      var last := |garbage| - 1;
      JunkHoldsNothing(garbage[..last]);
      assert JunkOf(garbage) == JunkOf(garbage[..last]) + [Junk(garbage[last])];
      JunkCountAppend(JunkOf(garbage[..last]), [Junk(garbage[last])]);
      assert JunkCount([Junk(garbage[last])]) == 1;
      FramesStep(JunkOf(garbage[..last]), Junk(garbage[last]));
    }
  }

  lemma AfterJunk(garbage: seq<byte>, f: Frame, raw: seq<byte>, rest: seq<Event>)
    ensures var all := JunkOf(garbage) + [Good(f, raw)] + rest;
      && JunkCount(all) == |garbage| + JunkCount(rest)
      && Frames(all) == [f] + Frames(rest)
  {
    hide JunkOf, Frames;
    var e := Good(f, raw);
    JunkHoldsNothing(garbage);
    JunkCountAppend(JunkOf(garbage), [e]);
    JunkCountAppend(JunkOf(garbage) + [e], rest);
    assert [e][..0] == [];
    FramesStep(JunkOf(garbage), e);
    FramesAppend(JunkOf(garbage) + [e], rest);
  }

  /** Together with the resynchronisation: the counters of the whole stream are those of the garbage,
      discarded in one run, and of what follows the frame. */
  lemma ResynchronisesOnce(garbage: seq<byte>, m: Message, tail: seq<byte>)
    requires Sendable(m) && |m.Bytes()| + |tail| >= HEADER_SIZE + MAX_PAYLOAD - 1
    requires garbage != []
    requires forall i :: 0 <= i < |garbage| ==>
      !Judge((garbage + m.Bytes() + tail)[i..]).Whole?
    ensures var all := Parse(garbage + m.Bytes() + tail).0;
      && |RunStarts(all)| == 1 + |RunStarts(Parse(tail).0)|
      && JunkCount(all) == |garbage| + JunkCount(Parse(tail).0)
      && Frames(all) == [FrameOf(m)] + Frames(Parse(tail).0)
  {
    hide Parse, Judge, RunStarts, JunkCount, Frames, JunkOf, FrameOf, Message.Bytes;
    var good := Good(FrameOf(m), m.Bytes());
    var rest := Parse(tail).0;
    JunkIsOneRun(garbage, good, rest);
    Resynchronises(garbage, m, tail);
    AfterJunk(garbage, FrameOf(m), m.Bytes(), rest);
  }
}
