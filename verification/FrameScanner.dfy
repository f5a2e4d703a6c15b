/** The incremental frame extractor: a compacting fixed buffer over the byte stream. */
module FrameScanning {
  import opened Wrappers
  import opened Bits
  import opened Framing
  import opened Stream

  const CAPACITY := 2048

  class FrameScanner {
    const buffer: array<byte>
    var begin: nat
    var end: nat
    var inResync: bool
    var discardedBytes: nat
    var resyncEvents: nat
    var foreignFrames: nat
    var lastForeign: byte

    // Every byte accepted so far, and what has been made of it.
    ghost var stream: seq<byte>
    ghost var log: seq<Event>

    ghost predicate BufferValid()
      reads this
    {
      buffer.Length == CAPACITY && begin <= end <= CAPACITY
    }

    ghost function Pending(): seq<byte>
      reads this, buffer
      requires BufferValid()
    {
      buffer[begin..end]
    }

    /** The counters are those of the log. */
    ghost predicate CountersValid()
      reads this
    {
      && inResync == (log != [] && log[|log| - 1].Junk?)
      && discardedBytes == JunkCount(log)
      && resyncEvents == |RunStarts(log)|
      && foreignFrames == ForeignCount(log)
      && lastForeign == LastForeign(log)
    }

    /** The log and the buffer are the scan of the stream, part done and part to do. */
    ghost predicate Valid()
      reads this, buffer
    {
      && BufferValid()
      && CountersValid()
      && Scanned(stream, log, Pending())
    }

    ghost predicate Drained()
      reads this, buffer
      requires BufferValid()
    {
      Judge(Pending()).NeedMore?
    }

    constructor ()
      ensures Valid() && fresh(buffer) && stream == [] && log == [] && Drained()
    {
      buffer := new byte[CAPACITY];
      begin, end, inResync := 0, 0, false;
      discardedBytes, resyncEvents, foreignFrames, lastForeign := 0, 0, 0, 0;
      stream, log := [], [];
      new;
      assert RunStarts(log) == {};
      ScannedEmpty();
      assert Pending() == [];
    }

    /** Moves the unread bytes to the front of the buffer. */
    method Compact()
      requires BufferValid()
      modifies this`begin, this`end, buffer
      ensures BufferValid() && begin == 0 && Pending() == old(Pending())
    {
      forall i | 0 <= i < end - begin {
        buffer[i] := buffer[begin + i];
      }
      begin, end := 0, end - begin;
    }

    /** Appends as many bytes as fit, compacting first when the free tail is too short. */
    method Push(bytes: seq<byte>) returns (accepted: nat)
      requires Valid()
      modifies this`begin, this`end, this`stream, buffer
      ensures Valid()
      ensures accepted == if |bytes| <= 2048 - old(|Pending()|) then |bytes| else 2048 - old(|Pending()|)
      ensures Pending() == old(Pending()) + bytes[..accepted]
      ensures stream == old(stream) + bytes[..accepted]
    {
      hide Scanned, Judge, JunkCount, RunStarts, ForeignCount, LastForeign;
      if begin == end {
        begin, end := 0, 0;
      } else if begin > 0 && CAPACITY - end < |bytes| {
        Compact();
      }
      accepted := if |bytes| < CAPACITY - end then |bytes| else CAPACITY - end;
      AppendBytes(bytes[..accepted]);
      ScannedMore(stream, log, old(Pending()), bytes[..accepted]);
      stream := stream + bytes[..accepted];
    }

    method AppendBytes(bytes: seq<byte>)
      requires BufferValid() && |bytes| <= CAPACITY - end
      modifies this`end, buffer
      ensures BufferValid() && Pending() == old(Pending()) + bytes
    {
      forall i | 0 <= i < |bytes| {
        buffer[end + i] := bytes[i];
      }
      end := end + |bytes|;
    }

    /** Drops one byte at which no frame starts. */
    method Drop()
      requires Valid() && Judge(Pending()).NotHere?
      modifies this`begin, this`inResync, this`discardedBytes, this`resyncEvents, this`log
      ensures Valid()
      ensures Pending() == old(Pending())[1..] && log == old(log) + [Junk(old(Pending())[0])]
    {
      hide Judge, Parse, Bytes, JunkCount, RunStarts, ForeignCount, LastForeign;
      ghost var s := Pending();
      ghost var e := EventAt(s);
      assert e == Junk(s[0]);
      if !inResync {
        resyncEvents := resyncEvents + 1;
        inResync := true;
      }
      discardedBytes := discardedBytes + 1;
      begin := begin + 1;
      assert Pending() == s[1..];
      CountersStep(log, e);
      ScannedStep(stream, log, s, s[1..]);
      log := log + [e];
    }

    /** Takes the frame at the front; one of another version is counted, not returned. */
    method TakeFrame(header: Header) returns (r: Option<Frame>)
      requires Valid() && Judge(Pending()).Whole? && header == DecodeHeader(Pending())
      modifies this`begin, this`inResync, this`foreignFrames, this`lastForeign, this`log
      ensures Valid() && |Pending()| < old(|Pending()|)
      ensures log == old(log) + [EventAt(old(Pending()))]
      ensures EventAt(old(Pending())) ==
        if r.Some? then Good(r.value, old(Pending())[..HEADER_SIZE + header.len])
        else Foreign(header.verFlags % 256, old(Pending())[..HEADER_SIZE + header.len])
    {
      hide Parse, Bytes, JunkCount, RunStarts, ForeignCount, LastForeign, FrameCrc, DecodeHeader;
      var s := buffer[begin..end];
      var total := HEADER_SIZE + header.len;
      var payload := s[HEADER_SIZE..total];
      CountersStep(log, EventAt(s));
      ScannedStep(stream, log, s, s[total..]);
      log := log + [EventAt(s)];
      inResync := false;
      begin := begin + total;
      assert Pending() == s[total..];
      var version: byte := header.verFlags % 256;
      if version != PROTOCOL_VERSION {
        foreignFrames := foreignFrames + 1;
        lastForeign := version;
        return None;
      }
      return Some(Frame(TypeOf(header.code).value, header.seqNo, header.tsMs, payload));
    }

    /** The next frame of this protocol version, or nothing once the buffer needs more bytes. */
    method Next() returns (r: Option<Frame>)
      requires Valid()
      modifies this`begin, this`inResync, this`discardedBytes, this`resyncEvents,
               this`foreignFrames, this`lastForeign, this`log
      ensures Valid()
      ensures old(log) <= log
      ensures Frames(log) == Frames(old(log)) + (if r.Some? then [r.value] else [])
      ensures r.None? ==> Drained()
      ensures r.Some? ==> |Pending()| < old(|Pending()|)
    {
      hide FrameCrc, DecodeHeader, Scanned, CountersValid, EventAt, Frames;
      while end - begin >= HEADER_SIZE
        invariant Valid() && old(log) <= log && Frames(log) == Frames(old(log))
        invariant |Pending()| <= old(|Pending()|)
        decreases end - begin
      {
        var s := buffer[begin..end];
        assert s == Pending();
        var header := DecodeHeader(s);
        if TypeOf(header.code).None? || header.len > MAX_PAYLOAD {
          FramesStep(log, Junk(s[0]));
          Drop();
          continue;
        }
        var total := HEADER_SIZE + header.len;
        if end - begin < total {
          return None;
        }
        if FrameCrc(s[..HEADER_SIZE], s[HEADER_SIZE..total]) != header.crc {
          FramesStep(log, Junk(s[0]));
          Drop();
          continue;
        }
        FramesStep(log, EventAt(s));
        r := TakeFrame(header);
        if r.Some? {
          return;
        }
      }
      return None;
    }
  }

  /** The reader's loop over one chunk. A drained scanner holds less than one frame, so the whole chunk
      is taken by the first push, and the loop's exit on a refused push is never reached. */
  method Feed(scanner: FrameScanner, chunk: seq<byte>) returns (frames: seq<Frame>)
    requires scanner.Valid() && scanner.Drained() && |chunk| <= 1537
    modifies scanner, scanner.buffer
    ensures scanner.Valid() && scanner.Drained()
    ensures scanner.stream == old(scanner.stream) + chunk
    ensures Frames(scanner.log) == Frames(old(scanner.log)) + frames
  {
    hide Scanned, FrameScanner.CountersValid, Frames;
    frames := [];
    var rest := chunk;
    while rest != []
      invariant rest == chunk || rest == []
      invariant scanner.Valid() && scanner.Drained()
      invariant scanner.stream + rest == old(scanner.stream) + chunk
      invariant Frames(scanner.log) == Frames(old(scanner.log)) + frames
      invariant rest == chunk ==> |scanner.Pending()| == |old(scanner.Pending())|
      decreases |rest|
    {
      var accepted := scanner.Push(rest);
      assert accepted == |rest|;
      rest := rest[accepted..];
      var frame := scanner.Next();
      while frame.Some?
        invariant scanner.Valid() && scanner.stream + rest == old(scanner.stream) + chunk
        invariant frame.None? ==> scanner.Drained()
        invariant Frames(scanner.log) ==
          Frames(old(scanner.log)) + frames + (if frame.Some? then [frame.value] else [])
        decreases frame.Some?, |scanner.Pending()|
      {
        frames := frames + [frame.value];
        frame := scanner.Next();
      }
      if accepted == 0 {
        assert false;
      }
    }
  }

  function Concat(chunks: seq<seq<byte>>): seq<byte> {
    if chunks == [] then [] else Concat(chunks[..|chunks| - 1]) + chunks[|chunks| - 1]
  }

  /** However a stream is cut into reads, the frames returned and every count are those of one
      scan of the whole stream, and less than one frame is left waiting. */
  method ScanStream(chunks: seq<seq<byte>>)
    returns (frames: seq<Frame>, discarded: nat, resyncs: nat, foreign: nat, lastForeign: byte,
             waiting: seq<byte>)
    requires forall c :: c in chunks ==> |c| <= 1537
    ensures var (events, rest) := Parse(Concat(chunks));
      && frames == Frames(events) && waiting == rest
      && discarded == JunkCount(events) && resyncs == |RunStarts(events)|
      && foreign == ForeignCount(events) && lastForeign == LastForeign(events)
    ensures |waiting| < 512
  {
    hide Judge, Bytes, Frames, JunkCount, ForeignCount, RunStarts, LastForeign;
    var scanner := new FrameScanner();
    frames := [];
    FramesOfNothing();
    for i := 0 to |chunks|
      invariant scanner.Valid() && scanner.Drained()
      invariant scanner.stream == Concat(chunks[..i])
      invariant frames == Frames(scanner.log)
      invariant fresh(scanner) && fresh(scanner.buffer)
    {
      assert chunks[i] in chunks;
      var more := Feed(scanner, chunks[i]);
      frames := frames + more;
      assert chunks[..i + 1][..i] == chunks[..i];
    }
    assert chunks[..|chunks|] == chunks;
    waiting := scanner.buffer[scanner.begin..scanner.end];
    assert scanner.log + [] == scanner.log;
    return frames, scanner.discardedBytes, scanner.resyncEvents, scanner.foreignFrames,
           scanner.lastForeign, waiting;
  }
}
