/** Ordering of telemetry by wrapping counters: duplicates, master restarts, and which frame may
    answer an exchange. */
module MasterLinks {
  import opened Wrappers
  import opened Framing
  import opened Telemetry

  const U16 := 0x1_0000
  const U32 := 0x1_0000_0000

  /** The difference of two 16-bit counters, as a signed 16-bit value. */
  function Step16(a: u16, b: u16): int {
    var d := (a - b) % U16;
    if d < 0x8000 then d else d - U16
  }

  function Step32(a: u32, b: u32): int {
    var d := (a - b) % U32;
    if d < 0x8000_0000 then d else d - U32
  }

  predicate Newer(a: u16, b: u16) {
    Step16(a, b) > 0
  }

  /** Of unbounded counters seen modulo the width, the signed step is the true step whenever that
      is within half the range. */
  lemma Step16IsTrueStep(t: nat, u: nat)
    requires -0x8000 <= t - u < 0x8000
    ensures Step16(t % U16, u % U16) == t - u
  {
  }

  /** So a frame counts as newer exactly when it is. */
  lemma NewerIsAhead(t: nat, u: nat)
    requires -0x8000 <= t - u < 0x8000
    ensures Newer(t % U16, u % U16) <==> t > u
  {
    Step16IsTrueStep(t, u);
  }

  lemma Step32IsTrueStep(t: nat, u: nat)
    requires -0x8000_0000 <= t - u < 0x8000_0000
    ensures Step32(t % U32, u % U32) == t - u
  {
  }

  // ---- The reader's state ----

  datatype Link = Link(
    previous: Option<(u16, u32)>, resetSeen: bool, duplicates: nat, published: seq<RobotTelemetry>)

  function Handle(s: Link, robot: RobotTelemetry): Link {
    var next := s.(previous := Some((robot.cycleId, robot.masterTimeUs)),
                   published := s.published + [robot]);
    match s.previous
    case None => next
    case Some((cycle, time)) =>
      if Step16(robot.cycleId, cycle) < 0 || Step32(robot.masterTimeUs, time) < 0 then
        next.(resetSeen := true)
      else if Step16(robot.cycleId, cycle) == 0 then s.(duplicates := s.duplicates + 1)
      else next
  }

  class MasterLink {
    var havePrevious: bool
    var previousCycle: u16
    var previousMasterTimeUs: u32
    var masterResetSeen: bool
    var duplicateFrames: nat
    var frames: seq<RobotTelemetry>

    ghost function Contents(): Link
      reads this
    {
      Link(if havePrevious then Some((previousCycle, previousMasterTimeUs)) else None,
           masterResetSeen, duplicateFrames, frames)
    }

    constructor ()
      ensures Contents() == Link(None, false, 0, [])
    {
      havePrevious, previousCycle, previousMasterTimeUs := false, 0, 0;
      masterResetSeen, duplicateFrames, frames := false, 0, [];
    }

    method HandleTelemetry(robot: RobotTelemetry)
      modifies this
      ensures Contents() == Handle(old(Contents()), robot)
    {
      var cycle, time := robot.cycleId, robot.masterTimeUs;
      if havePrevious {
        if Step16(cycle, previousCycle) < 0 || Step32(time, previousMasterTimeUs) < 0 {
          masterResetSeen := true;
        } else if Step16(cycle, previousCycle) == 0 {
          duplicateFrames := duplicateFrames + 1;
          return;
        }
      }
      havePrevious, previousCycle, previousMasterTimeUs := true, cycle, time;
      frames := frames + [robot];
    }

    method AcknowledgeMasterReset()
      modifies this`masterResetSeen
      ensures Contents() == old(Contents()).(resetSeen := false)
    {
      masterResetSeen := false;
    }
  }

  // ---- Runs against unbounded true counters ----

  /** A master that has run `cycles` cycles for `timeUs` microseconds. */
  datatype Truth = Truth(cycles: nat, timeUs: nat)

  predicate Shows(robot: RobotTelemetry, t: Truth) {
    robot.cycleId == t.cycles % U16 && robot.masterTimeUs == t.timeUs % U32
  }

  /** No restart between the two, and no gap of half a counter. */
  predicate Onward(t: Truth, u: Truth) {
    && t.cycles <= u.cycles < t.cycles + 0x8000
    && t.timeUs <= u.timeUs < t.timeUs + 0x8000_0000
    && (t.cycles == u.cycles ==> t.timeUs == u.timeUs)
  }

  function HandleAll(s: Link, robots: seq<RobotTelemetry>): Link
  {
    if robots == [] then s
    else Handle(HandleAll(s, robots[..|robots| - 1]), robots[|robots| - 1])
  }

  /** Repeats of the frame before, and the rest, in order. */
  function Repeats(ts: seq<Truth>): nat {
    if |ts| < 2 then 0
    else Repeats(ts[..|ts| - 1]) + if ts[|ts| - 1].cycles == ts[|ts| - 2].cycles then 1 else 0
  }

  function Fresh(robots: seq<RobotTelemetry>, ts: seq<Truth>): seq<RobotTelemetry>
    requires |robots| == |ts|
  {
    if ts == [] then []
    else
      var n := |ts| - 1;
      Fresh(robots[..n], ts[..n]) +
      if n > 0 && ts[n].cycles == ts[n - 1].cycles then [] else [robots[n]]
  }

  ghost predicate OnwardRun(robots: seq<RobotTelemetry>, ts: seq<Truth>) {
    && |robots| == |ts|
    && (forall i :: 0 <= i < |ts| ==> Shows(robots[i], ts[i]))
    && (forall i :: 0 < i < |ts| ==> Onward(ts[i - 1], ts[i]))
  }

  /** While the master keeps running, however its counters wrap: no restart is ever seen, exactly
      the repeated frames are dropped, and all the others are published in order. */
  lemma {:induction false} OnwardRunIsClean(robots: seq<RobotTelemetry>, ts: seq<Truth>)
    requires OnwardRun(robots, ts)
    ensures var s := HandleAll(Link(None, false, 0, []), robots);
      && !s.resetSeen && s.duplicates == Repeats(ts) && s.published == Fresh(robots, ts)
      && LeftAt(s, ts)
    decreases |ts|
  {
    hide Step16, Step32, Shows, Handle;
    if ts == [] {
    } else {
      var n := |ts| - 1;
      PrefixRun(robots, ts);
      OnwardRunIsClean(robots[..n], ts[..n]);
      var s := HandleAll(Link(None, false, 0, []), robots[..n]);
      if n > 0 {
        assert ts[..n][n - 1] == ts[n - 1];
        HandleOnward(s, robots[n], ts[n - 1], ts[n]);
      } else {
        HandleFirst(s, robots[n], ts[n]);
      }
    }
  }

  ghost predicate LeftAt(s: Link, ts: seq<Truth>) {
    s.previous ==
      if ts == [] then None
      else Some((ts[|ts| - 1].cycles % U16, ts[|ts| - 1].timeUs % U32))
  }

  lemma PrefixRun(robots: seq<RobotTelemetry>, ts: seq<Truth>)
    requires OnwardRun(robots, ts) && ts != []
    ensures OnwardRun(robots[..|ts| - 1], ts[..|ts| - 1])
  {
    hide Shows, Onward;
  }

  lemma HandleFirst(s: Link, robot: RobotTelemetry, t: Truth)
    requires s.previous == None && Shows(robot, t)
    ensures Handle(s, robot) ==
      s.(previous := Some((t.cycles % U16, t.timeUs % U32)), published := s.published + [robot])
  {
  }

  lemma HandleOnward(s: Link, robot: RobotTelemetry, t: Truth, u: Truth)
    requires s.previous == Some((t.cycles % U16, t.timeUs % U32))
    requires Shows(robot, u) && Onward(t, u)
    ensures Handle(s, robot) ==
      if t.cycles == u.cycles then s.(duplicates := s.duplicates + 1)
      else s.(previous := Some((u.cycles % U16, u.timeUs % U32)), published := s.published + [robot])
  {
    hide Step16, Step32;
    Step16IsTrueStep(u.cycles, t.cycles);
    Step32IsTrueStep(u.timeUs, t.timeUs);
  }

  /** A step back, of the cycle count or of the clock, by up to half the counter, is flagged; so is
      a step forward of exactly half the counter, which looks the same. */
  lemma StepBackIsFlagged(s: Link, robot: RobotTelemetry, t: Truth, u: Truth)
    requires s.previous == Some((t.cycles % U16, t.timeUs % U32)) && Shows(robot, u)
    requires
      || 0 < t.cycles - u.cycles <= 0x8000
      || 0 < t.timeUs - u.timeUs <= 0x8000_0000
    ensures Handle(s, robot).resetSeen && robot in Handle(s, robot).published
  {
    if 0 < t.cycles - u.cycles <= 0x8000 {
      Step16IsTrueStep(u.cycles, t.cycles);
    } else {
      Step32IsTrueStep(u.timeUs, t.timeUs);
    }
  }

  lemma HalfWrapLooksLikeAReset(t: nat)
    ensures Step16((t + 0x8000) % U16, t % U16) == -0x8000
    ensures Step32((t + 0x8000_0000) % U32, t % U32) == -0x8000_0000
  {
    hide Step16, Step32;
    HalfOfCycles(t);
    HalfOfClock(t);
  }

  lemma HalfOfCycles(t: nat)
    ensures Step16((t + 0x8000) % U16, t % U16) == -0x8000
  {
  }

  lemma HalfOfClock(t: nat)
    ensures Step32((t + 0x8000_0000) % U32, t % U32) == -0x8000_0000
  {
  }

  // ---- Which frame answers an exchange ----

  /** Waits for a frame ahead of `after`; `looks` is what each look at the buffer finds before the
      deadline or a failed link ends the wait. */
  method WaitForNewer(after: u16, looks: seq<Option<RobotTelemetry>>)
    returns (frame: Option<RobotTelemetry>, used: nat)
    ensures used <= |looks|
    ensures frame.Some? ==>
      used > 0 && looks[used - 1] == frame && Newer(frame.value.cycleId, after)
    ensures forall i :: 0 <= i < (if frame.Some? then used - 1 else |looks|) ==>
      looks[i].Some? ==> !Newer(looks[i].value.cycleId, after)
  {
    used := 0;
    while used < |looks|
      invariant used <= |looks|
      invariant forall i :: 0 <= i < used ==> looks[i].Some? ==> !Newer(looks[i].value.cycleId, after)
    {
      frame := looks[used];
      used := used + 1;
      if frame.Some? && Newer(frame.value.cycleId, after) {
        return;
      }
    }
    frame := None;
  }

  /** The true cycles of the frames that answer, when each look at the buffer shows the true cycle
      in `looks` and every answer becomes the one to be ahead of. */
  function Answers(last: nat, looks: seq<nat>): (answers: seq<nat>)
    decreases |looks|
  {
    if looks == [] then []
    else if Newer(looks[0] % U16, last % U16) then [looks[0]] + Answers(looks[0], looks[1..])
    else Answers(last, looks[1..])
  }

  /** Looks never go back, and never find a frame half a counter ahead of the last answer. */
  ghost predicate Close(last: nat, looks: seq<nat>)
    decreases |looks|
  {
    looks != [] ==>
      && last <= looks[0] < last + 0x8000
      && Close(if Newer(looks[0] % U16, last % U16) then looks[0] else last, looks[1..])
  }

  lemma {:induction false} NoneBehind(last: nat, looks: seq<nat>)
    requires Close(last, looks)
    ensures forall x :: x in looks ==> x >= last
    decreases |looks|
  {
    hide Newer;
    if looks != [] {
      NoneBehind(if Newer(looks[0] % U16, last % U16) then looks[0] else last, looks[1..]);
      assert looks == [looks[0]] + looks[1..];
    }
  }

  /** So no telemetry cycle answers two exchanges, each answer is ahead of the last, and no cycle seen
      ahead goes without answering. */
  lemma {:induction false} NoCycleAnswersTwice(last: nat, looks: seq<nat>)
    requires Close(last, looks)
    ensures forall i :: 0 <= i < |Answers(last, looks)| ==> last < Answers(last, looks)[i]
    ensures forall i, j :: 0 <= i < j < |Answers(last, looks)| ==>
      Answers(last, looks)[i] < Answers(last, looks)[j]
    ensures forall x :: x in looks && x > last ==> x in Answers(last, looks)
    decreases |looks|
  {
    hide Newer;
    if looks == [] {
    } else {
      NewerIsAhead(looks[0], last);
      if Newer(looks[0] % U16, last % U16) {
        NoCycleAnswersTwice(looks[0], looks[1..]);
        NoneBehind(looks[0], looks[1..]);
        forall x | x in looks && x > last
          ensures x in Answers(last, looks)
        {
          assert looks == [looks[0]] + looks[1..];
          assert x == looks[0] || x in Answers(looks[0], looks[1..]);
        }
      } else {
        NoCycleAnswersTwice(last, looks[1..]);
      }
    }
  }

  /** With a gap of exactly half the counter the newer frame is refused. */
  lemma HalfWrapNeverAnswers(last: nat)
    ensures Answers(last, [last + 0x8000]) == []
  {
    HalfWrapLooksLikeAReset(last);
    assert [last + 0x8000][1..] == [];
  }
}
