/** The telemetry record a master's state is reported as, and what the host can read back out of
    it about one motor. */
module MasterReports {
  import opened Wrappers
  import opened Bits
  import opened Framing
  import opened Telemetry
  import opened JointWiring
  import opened JointPolicy
  import opened DriveSm
  import opened Master
  import opened DeadMan
  import opened Channel

  const LINK_LOST: byte := 0
  const LINK_ALIVE: byte := 1
  const LINK_MISMATCH: byte := 2

  const ROBOT_INIT: byte := 0
  const ROBOT_READY: byte := 1
  const ROBOT_DEGRADED: byte := 2
  const ROBOT_HOST_LOST: byte := 3
  const ROBOT_PROTO_MISMATCH: byte := 4

  predicate Alive(c: Chain) {
    !c.dropped && !c.mismatch
  }

  function ReportedAge(m: Motor): byte {
    Min(m.fbAge + m.unansweredMs, AGE_SATURATION_MS)
  }

  function ViewMotor(m: Motor): TeleMotor {
    TeleMotor(m.pos, m.vel, m.tau, 30, StateCode(m.driveState), FaultCode(m.driveFault), m.rsMode,
              m.motorFault, if m.rejected then 1 else 0, ReportedAge(m), 0, m.lastApplied, 0)
  }

  function ViewChain(c: Chain, timeUs: u32): (t: TeleChain)
    requires |c.motors| <= MAX_MOTORS
    ensures |t.motors| == MAX_MOTORS
  {
    if Alive(c) then
      TeleChain(c.id, |c.motors|, LINK_ALIVE, 0, 0, timeUs, 0, 0, 0,
        seq(MAX_MOTORS, k requires 0 <= k < MAX_MOTORS =>
          if k < |c.motors| then ViewMotor(c.motors[k]) else ZERO_MOTOR))
    else
      ZERO_CHAIN.(chainId := c.id, link := if c.mismatch then LINK_MISMATCH else LINK_LOST)
  }

  /** Host loss over version mismatch over connectivity. */
  function RobotState(s: State): byte {
    if s.hostLost then ROBOT_HOST_LOST
    else if AnyMismatch(s.chains) then ROBOT_PROTO_MISMATCH
    else if forall c :: 0 <= c < |s.chains| ==> !Alive(s.chains[c]) then ROBOT_INIT
    else if forall c :: 0 <= c < |s.chains| ==> Alive(s.chains[c]) then ROBOT_READY
    else ROBOT_DEGRADED
  }

  function View(s: State): (t: RobotTelemetry)
    requires Carriable(s.chains)
    ensures FixedSize(t)
  {
    RobotTelemetry(
      s.cycleId, s.masterTimeUs, s.cmdSeqRx, s.cmdSeqActive, 0, 0, 0, 0, |s.chains|, RobotState(s),
      seq(MAX_CHAINS, i requires 0 <= i < MAX_CHAINS =>
        if i < |s.chains| then ViewChain(s.chains[i], s.masterTimeUs) else ZERO_CHAIN))
  }

  /** The report survives the wire: what the master serialises, the host parses back whole. */
  lemma ViewSurvivesWire(s: State)
    requires Carriable(s.chains)
    ensures Acceptable(Serialise(View(s))) && Parsed(Serialise(View(s))) == View(s)
  {
    hide RobotState, ViewChain, Serialise, Parsed, Acceptable;
    var t := View(s);
    forall i: nat | i < t.nChains
      ensures t.chains[i].nMotors <= MAX_MOTORS
    {
      AnnouncesFew(s.chains[i], s.masterTimeUs);
    }
    SerialiseParses(t, []);
    assert Serialise(t) + [] == Serialise(t);
    assert Truncated(t).chains == t.chains;
  }

  lemma AnnouncesFew(c: Chain, timeUs: u32)
    requires |c.motors| <= MAX_MOTORS
    ensures ViewChain(c, timeUs).nMotors <= MAX_MOTORS
  {
  }

  /** Reading by chain id and index finds exactly the motor there, and nothing when its chain is
      not alive. */
  lemma FoundIsTheMotor(s: State, c: nat, k: byte)
    requires Carriable(s.chains) && c < |s.chains| && k < MAX_MOTORS
    ensures Found(View(s), s.chains[c].id, k) ==
      if Alive(s.chains[c]) && k < |s.chains[c].motors| then Some(ViewMotor(s.chains[c].motors[k]))
      else None
  {
    hide RobotState;
    var t := View(s);
    ChainFromFinds(t, s.chains[c].id, 0);
    assert t.chains[c].chainId == s.chains[c].id;
    var r := ChainFrom(t, s.chains[c].id, 0);
    assert r.Some?;
    var i :| 0 <= i < Announced(t) && t.chains[i] == r.value && t.chains[i].chainId == s.chains[c].id;
    assert s.chains[i].id == s.chains[c].id;
  }

  /** What a report says of a motor: where it is and how it moves, its state and latched fault as the
      wire numbers them, which command it last acted on, and how long ago its drive was heard. */
  lemma ReportOfMotor(s: State, c: nat, k: byte)
    requires Carriable(s.chains) && Exists(s, c, k) && !s.chains[c].dropped && !s.chains[c].mismatch
    ensures k < MAX_MOTORS && Found(View(s), s.chains[c].id, k).Some?
    ensures var m := MotorAt(s, c, k);
      var t := Found(View(s), s.chains[c].id, k).value;
      && t.pos == m.pos && t.vel == m.vel && t.tau == m.tau && t.lastAppliedSeq == m.lastApplied
      && (t.driveState == 0 <==> m.driveState.Boot?) && (t.driveState == 1 <==> m.driveState.Discovering?)
      && (t.driveState == 2 <==> m.driveState.Absent?) && (t.driveState == 3 <==> m.driveState.Disabled?)
      && (t.driveState == 4 <==> m.driveState.Enabling?) && (t.driveState == 5 <==> m.driveState.Enabled?)
      && (t.driveState == 6 <==> m.driveState.Stopping?) && (t.driveState == 7 <==> m.driveState.Clearing?)
      && (t.driveState == 8 <==> m.driveState.Fault?)
      && (t.driveFault == 0 <==> m.driveFault.NoFault?) && (t.driveFault == 1 <==> m.driveFault.CanTimeout?)
      && (t.driveFault == 2 <==> m.driveFault.MasterLost?)
      && (t.driveFault == 3 <==> m.driveFault.EnableFailed?)
      && (t.driveFault == 4 <==> m.driveFault.NotEnabled?) && (t.driveFault == 5 <==> m.driveFault.Overtorque?)
      && (t.driveFault == 6 <==> m.driveFault.MotorReported?) && (t.driveFault == 7 <==> m.driveFault.Wound?)
      && (t.flags % 2 == 1 <==> m.rejected) && t.rsFaultBits == m.motorFault && t.rsMode == m.rsMode
      && t.fbAgeMs == if m.fbAge + m.unansweredMs > 255 then 255 else m.fbAge + m.unansweredMs
  {
    hide View;
    FoundIsTheMotor(s, c, k);
  }

  /** And of the robot: which cycle it is, and which commands came in and are acted on. */
  lemma ReportOfRobot(s: State)
    requires Carriable(s.chains)
    ensures var t := View(s);
      && t.cycleId == s.cycleId && t.masterTimeUs == s.masterTimeUs && t.nChains == |s.chains|
      && t.lastCmdSeqRx == s.cmdSeqRx && t.cmdSeqActive == s.cmdSeqActive
      && t.cmdOnTime == 0 && t.cmdLate == 0 && t.cmdMissing == 0 && t.cmdDuplicate == 0
      && (t.robotState == 0 <==> !s.hostLost && forall c :: 0 <= c < |s.chains| ==>
           s.chains[c].dropped && !s.chains[c].mismatch)
      && (t.robotState == 1 <==> !s.hostLost && s.chains != [] && forall c :: 0 <= c < |s.chains| ==>
           !s.chains[c].dropped && !s.chains[c].mismatch)
      && (t.robotState == 3 <==> s.hostLost)
      && (t.robotState == 4 <==> !s.hostLost && exists c :: 0 <= c < |s.chains| && s.chains[c].mismatch)
    ensures forall c :: 0 <= c < |s.chains| ==>
      var chain := View(s).chains[c];
      && chain.chainId == s.chains[c].id && (chain.link == 2 <==> s.chains[c].mismatch)
      && (chain.link == 1 <==> !s.chains[c].mismatch && !s.chains[c].dropped)
      && chain.nMotors == if chain.link == 1 then |s.chains[c].motors| else 0
  {
    if !s.hostLost && !AnyMismatch(s.chains) {
      assert forall c :: 0 <= c < |s.chains| ==> !s.chains[c].mismatch;
      assert forall c :: 0 <= c < |s.chains| ==> (Alive(s.chains[c]) <==> !s.chains[c].dropped);
      if s.chains != [] {
        assert s.chains[0].dropped <==> !Alive(s.chains[0]);
      }
    }
  }

  /** A slave that is cut off, or is of another version, is reported with no motors; and with them again
      once it is neither. */
  lemma CutOffIsUnreported(s: State, c: nat, k: byte, cfg: Config, dropped: bool, mismatch: bool)
    requires Carriable(s.chains) && Exists(s, c, k)
    ensures var t := Happen(Happen(s, SetDropped(c, dropped), cfg), SetMismatch(c, mismatch), cfg);
      Carriable(t.chains) && (Found(View(t), s.chains[c].id, k).Some? <==> !dropped && !mismatch)
  {
    hide View, Cycle;
    FoundIsTheMotor(Happen(Happen(s, SetDropped(c, dropped), cfg), SetMismatch(c, mismatch), cfg), c, k);
  }

  lemma FoundExists(s: State, id: byte, k: byte) returns (c: nat)
    requires Carriable(s.chains) && k < MAX_MOTORS && Found(View(s), id, k).Some?
    ensures Exists(s, c, k) && s.chains[c].id == id
    ensures Found(View(s), id, k).value == ViewMotor(MotorAt(s, c, k))
  {
    hide RobotState, ViewMotor;
    var t := View(s);
    ChainFromFinds(t, id, 0);
    var i :| 0 <= i < Announced(t) && t.chains[i].chainId == id;
    c := i;
    FoundIsTheMotor(s, c, k);
  }

  /** A joint reported ENABLED is an armed motor of the robot. */
  lemma EnabledIsArmed(s: State, w: Wiring)
    requires Carriable(s.chains) && w.motor < MAX_MOTORS && Reports(MotorOf(View(s), w), Enabled)
    ensures ArmedIn(s, w.chain, w.motor)
  {
    hide View, ReportedAge;
    var c := FoundExists(s, w.chain, w.motor);
    assert ArmedOn(s, c, w.chain, w.motor);
  }
}
