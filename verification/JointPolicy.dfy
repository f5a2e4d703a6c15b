/** What the transport asks of each motor in each phase, and how it reads each motor's reply. */
module JointPolicy {
  import opened Wrappers
  import opened Bits
  import opened Framing
  import opened Telemetry
  import opened FixedPoint
  import opened BatchTypes
  import opened JointWiring
  import opened DriveSm
  import opened Master

  // ---- Requests ----

  datatype Phase = ToClear | ToArm | ToRun | ToStop | ToRelease

  datatype JointRequest = JointRequest(request: DriveReq, sendTuple: bool, useConfigGains: bool)

  function PlanRequest(phase: Phase, isolated: bool): JointRequest {
    match phase
    case ToClear => JointRequest(Reset, false, false)
    case ToArm => JointRequest(Enable, true, true)
    case ToStop => JointRequest(Stop, false, false)
    case ToRelease => JointRequest(Disable, false, false)
    case ToRun =>
      if isolated then JointRequest(Disable, false, false) else JointRequest(Enable, true, false)
  }

  /** A request with no tuple. */
  function PlainRequest(r: JointRequest): CmdMotor {
    ZERO_CMD_MOTOR.(driveReq := r.request, useConfigGains := r.useConfigGains)
  }

  /** RESET is asked for while clearing and never otherwise, and every ENABLE brings a tuple: what
      the arming theorems need of the requests. */
  lemma OnlyClearingResets(phase: Phase, isolated: bool)
    ensures PlanRequest(phase, isolated).request.Reset? <==> phase.ToClear?
    ensures PlanRequest(phase, isolated).request.Enable?
      <==> phase.ToArm? || (phase.ToRun? && !isolated)
    ensures PlanRequest(phase, isolated).sendTuple <==> PlanRequest(phase, isolated).request.Enable?
  {
  }

  // ---- Telemetry by chain id ----

  /** The chains a frame announces, as far as its fixed array goes. */
  function Announced(t: RobotTelemetry): nat {
    Min(t.nChains, MAX_CHAINS)
  }

  /** The first announced chain with the id, looking from index i. */
  function ChainFrom(t: RobotTelemetry, chain: byte, i: nat): (r: Option<TeleChain>)
    requires FixedSize(t)
    ensures r.Some? ==> r.value in t.chains && |r.value.motors| == MAX_MOTORS
    decreases MAX_CHAINS - i
  {
    if i >= Announced(t) then None
    else if t.chains[i].chainId == chain then Some(t.chains[i])
    else ChainFrom(t, chain, i + 1)
  }

  function Found(t: RobotTelemetry, chain: byte, motor: byte): Option<TeleMotor>
    requires FixedSize(t) && motor < MAX_MOTORS
  {
    match ChainFrom(t, chain, 0)
    case Some(c) => if motor < c.nMotors then Some(c.motors[motor]) else None
    case None => None
  }

  lemma {:induction false} ChainFromFinds(t: RobotTelemetry, chain: byte, i: nat)
    requires FixedSize(t)
    ensures var r := ChainFrom(t, chain, i);
      && (r.Some? ==> exists k ::
            i <= k < Announced(t) && t.chains[k] == r.value && t.chains[k].chainId == chain &&
            forall j :: i <= j < k ==> t.chains[j].chainId != chain)
      && (r.None? ==> forall k :: i <= k < Announced(t) ==> t.chains[k].chainId != chain)
    decreases MAX_CHAINS - i
  {
    if i >= Announced(t) || t.chains[i].chainId == chain {
    } else {
      ChainFromFinds(t, chain, i + 1);
    }
  }

  method FindMotor(t: RobotTelemetry, chain: byte, motor: byte) returns (r: Option<TeleMotor>)
    requires FixedSize(t) && motor < MAX_MOTORS
    ensures r == Found(t, chain, motor)
  {
    var i := 0;
    while i < t.nChains && i < MAX_CHAINS
      invariant 0 <= i <= Announced(t)
      invariant ChainFrom(t, chain, 0) == ChainFrom(t, chain, i)
      decreases MAX_CHAINS - i
    {
      var candidate := t.chains[i];
      if candidate.chainId == chain {
        assert candidate in t.chains;
        if motor < candidate.nMotors {
          return Some(candidate.motors[motor]);
        }
        return None;
      }
      i := i + 1;
    }
    return None;
  }

  /** The announced motor count of the first chain with the id; a chain announcing none is not
      reporting at all. */
  function MotorCount(t: RobotTelemetry, chain: byte): Option<byte>
    requires FixedSize(t)
  {
    match ChainFrom(t, chain, 0)
    case Some(c) => if c.nMotors == 0 then None else Some(c.nMotors)
    case None => None
  }

  method ChainMotorCount(t: RobotTelemetry, chain: byte) returns (r: Option<byte>)
    requires FixedSize(t)
    ensures r == MotorCount(t, chain)
  {
    var i := 0;
    while i < t.nChains && i < MAX_CHAINS
      invariant 0 <= i <= Announced(t)
      invariant ChainFrom(t, chain, 0) == ChainFrom(t, chain, i)
      decreases MAX_CHAINS - i
    {
      if t.chains[i].chainId == chain {
        if t.chains[i].nMotors == 0 {
          return None;
        }
        return Some(t.chains[i].nMotors);
      }
      i := i + 1;
    }
    return None;
  }

  /** A motor is found exactly when its chain is reporting and announces more motors than its
      index: a chain that answers with too few is a mismatch, one that reports none is silence. */
  lemma FoundIffCounted(t: RobotTelemetry, chain: byte, motor: byte)
    requires FixedSize(t) && motor < MAX_MOTORS
    ensures Found(t, chain, motor).Some?
      <==> MotorCount(t, chain).Some? && motor < MotorCount(t, chain).value
  {
  }

  // ---- Verdicts ----

  function StateCode(s: DriveState): byte {
    match s
    case Boot => 0
    case Discovering => 1
    case Absent => 2
    case Disabled => 3
    case Enabling => 4
    case Enabled => 5
    case Stopping => 6
    case Clearing => 7
    case Fault => 8
  }

  function FaultCode(f: DriveFault): byte {
    match f
    case NoFault => 0
    case CanTimeout => 1
    case MasterLost => 2
    case EnableFailed => 3
    case NotEnabled => 4
    case Overtorque => 5
    case MotorReported => 6
    case Wound => 7
  }

  lemma StateCodesDistinct(a: DriveState, b: DriveState)
    ensures StateCode(a) == StateCode(b) <==> a == b
  {
  }

  predicate ReportsWithin(m: TeleMotor, maxAgeUs: nat) {
    m.fbAgeMs as nat * 1000 <= maxAgeUs
  }

  predicate Reports(m: Option<TeleMotor>, state: DriveState) {
    m.Some? && m.value.driveState == StateCode(state)
  }

  /** The motor is in the state, heard from within the limit. */
  predicate ReportsFresh(m: Option<TeleMotor>, state: DriveState, maxAgeUs: nat) {
    Reports(m, state) && ReportsWithin(m.value, maxAgeUs)
  }

  function MotorOf(t: RobotTelemetry, w: Wiring): Option<TeleMotor>
    requires FixedSize(t) && w.motor < MAX_MOTORS
  {
    Found(t, w.chain, w.motor)
  }

  lemma MotorIs(t: RobotTelemetry, w: Wiring)
    requires FixedSize(t) && w.motor < MAX_MOTORS
    ensures MotorOf(t, w) == Found(t, w.chain, w.motor)
  {
  }

  predicate AllPlacedJoints(joints: seq<Wiring>) {
    forall w :: w in joints ==> w.motor < MAX_MOTORS
  }

  datatype Verdict = Reached | Waiting(joint: nat) | Failed(joint: nat)

  /** Every joint reports the state, freshly. */
  predicate AllReport(t: RobotTelemetry, joints: seq<Wiring>, state: DriveState, maxAgeUs: nat)
    requires FixedSize(t) && AllPlacedJoints(joints)
  {
    forall j :: 0 <= j < |joints| ==> ReportsFresh(MotorOf(t, joints[j]), state, maxAgeUs)
  }

  predicate NoneFaulted(t: RobotTelemetry, joints: seq<Wiring>)
    requires FixedSize(t) && AllPlacedJoints(joints)
  {
    forall j :: 0 <= j < |joints| ==> !Reports(MotorOf(t, joints[j]), Fault)
  }

  /** The verdict on a step towards `state`, where a fault counts once `faultsCount`: reached
      exactly when every joint is there, failed at the first fault that counts, otherwise waiting
      on the first joint that is not there. */
  predicate Judged(
    v: Verdict, t: RobotTelemetry, joints: seq<Wiring>, state: DriveState, maxAgeUs: nat,
    faultsCount: bool)
    requires FixedSize(t) && AllPlacedJoints(joints)
  {
    && (v.Failed? ==>
      && v.joint < |joints| && faultsCount && Reports(MotorOf(t, joints[v.joint]), Fault)
      && NoneFaulted(t, joints[..v.joint]))
    && (!v.Failed? && faultsCount ==> NoneFaulted(t, joints))
    && (v.Reached? ==> AllReport(t, joints, state, maxAgeUs))
    && (v.Waiting? ==>
      && v.joint < |joints| && !ReportsFresh(MotorOf(t, joints[v.joint]), state, maxAgeUs)
      && AllReport(t, joints[..v.joint], state, maxAgeUs))
  }

  /** Those clauses leave one verdict. */
  lemma JudgedOnce(
    v: Verdict, u: Verdict, t: RobotTelemetry, joints: seq<Wiring>, state: DriveState,
    maxAgeUs: nat, faultsCount: bool)
    requires FixedSize(t) && AllPlacedJoints(joints)
    requires Judged(v, t, joints, state, maxAgeUs, faultsCount)
    requires Judged(u, t, joints, state, maxAgeUs, faultsCount)
    ensures v == u
  {
    hide MotorOf, ReportsFresh, Reports;
  }

  /** It is reached exactly when every joint is there. */
  lemma ReachedExactly(
    v: Verdict, t: RobotTelemetry, joints: seq<Wiring>, state: DriveState, maxAgeUs: nat,
    faultsCount: bool)
    requires FixedSize(t) && AllPlacedJoints(joints) && !state.Fault?
    requires Judged(v, t, joints, state, maxAgeUs, faultsCount)
    ensures v.Reached? <==> AllReport(t, joints, state, maxAgeUs)
    ensures v.Failed? ==> faultsCount && exists j :: 0 <= j < |joints| && Reports(MotorOf(t, joints[j]), Fault)
  {
    hide MotorOf;
    if v.Failed? {
      StateCodesDistinct(state, Fault);
      assert Reports(MotorOf(t, joints[v.joint]), Fault);
    }
  }

  method JudgeClearing(t: RobotTelemetry, joints: seq<Wiring>, maxAgeUs: nat, graceOver: bool)
    returns (v: Verdict)
    requires FixedSize(t) && AllPlacedJoints(joints)
    ensures Judged(v, t, joints, Disabled, maxAgeUs, graceOver)
  {
    v := Judge(t, joints, Disabled, maxAgeUs, graceOver);
  }

  method JudgeArming(t: RobotTelemetry, joints: seq<Wiring>, maxAgeUs: nat) returns (v: Verdict)
    requires FixedSize(t) && AllPlacedJoints(joints)
    ensures Judged(v, t, joints, Enabled, maxAgeUs, true)
  {
    v := Judge(t, joints, Enabled, maxAgeUs, true);
  }

  /** The loop the two judgements share. */
  method Judge(t: RobotTelemetry, joints: seq<Wiring>, state: DriveState, maxAgeUs: nat, faultsCount: bool)
    returns (v: Verdict)
    requires FixedSize(t) && AllPlacedJoints(joints)
    ensures Judged(v, t, joints, state, maxAgeUs, faultsCount)
  {
    hide MotorOf, ReportsFresh;
    v := Reached;
    for j := 0 to |joints|
      invariant !v.Failed?
      invariant faultsCount ==> NoneFaulted(t, joints[..j])
      invariant v.Reached? ==> AllReport(t, joints[..j], state, maxAgeUs)
      invariant v.Waiting? ==>
        && v.joint < j && !ReportsFresh(MotorOf(t, joints[v.joint]), state, maxAgeUs)
        && AllReport(t, joints[..v.joint], state, maxAgeUs)
    {
      assert joints[..j + 1] == joints[..j] + [joints[j]];
      var motor := FindMotor(t, joints[j].chain, joints[j].motor);
      MotorIs(t, joints[j]);
      if Reports(motor, Fault) && faultsCount {
        return Failed(j);
      }
      if !ReportsFresh(motor, state, maxAgeUs) && v.Reached? {
        v := Waiting(j);
      }
    }
    assert joints[..|joints|] == joints;
  }

  // ---- One motor's reply in joint units ----

  datatype JointReading = JointReading(feedback: JointFeedback, commandable: bool)

  function FaultBits(m: TeleMotor): u16 {
    m.rsFaultBits % 64 + (if m.driveState == StateCode(Fault) then 64 else 0) + 256 * m.driveFault
  }

  function ReadJoint(w: Wiring, m: Option<TeleMotor>, maxAgeUs: nat): JointReading
    requires Placed(w)
  {
    match m
    case None => JointReading(NO_FEEDBACK, false)
    case Some(t) =>
      JointReading(
        JointFeedback(
          JointPosition(w, DecodeI16(t.pos, POS_SCALE)), SignedValue(w, DecodeI16(t.vel, VEL_SCALE)),
          SignedValue(w, DecodeI16(t.tau, TAU_SCALE)), t.tempC, FaultBits(t),
          ReportsWithin(t, maxAgeUs)),
        t.driveState == StateCode(Enabled))
  }

  /** What a joint reads, in its own units and direction: position, velocity and effort at the wire's
      10000, 100 and 100 counts a unit; fresh exactly when heard from within the limit; and commandable
      exactly in the state the wire calls 5, ENABLED. A motor not reported reads as nothing. */
  lemma ReadingIs(w: Wiring, m: TeleMotor, maxAgeUs: nat)
    requires Placed(w)
    ensures var reading := ReadJoint(w, Some(m), maxAgeUs);
      var f := reading.feedback;
      var turned := if w.directionSign == 1 then 1.0 else -1.0;
      && f.position == turned * (m.pos as real / 10000.0 - w.zeroOffset.r)
      && f.velocity == turned * (m.vel as real / 100.0) && f.effort == turned * (m.tau as real / 100.0)
      && f.temperature == m.tempC && (f.isFresh <==> m.fbAgeMs * 1000 <= maxAgeUs)
      && f.faultBits == FaultBits(m)
      && (reading.commandable <==> m.driveState == 5)
    ensures ReadJoint(w, None, maxAgeUs) == JointReading(JointFeedback(0.0, 0.0, 0.0, 0, 0, false), false)
  {
    hide FaultBits;
  }

  /** The packed word gives back the drive's six fault bits, whether the firmware is in FAULT, and
      the latched cause. */
  lemma FaultBitsUnpack(m: TeleMotor)
    ensures var w := FaultBits(m);
      && w % 64 == m.rsFaultBits % 64
      && (w / 64 % 2 == 1 <==> m.driveState == 8)
      && w / 128 % 2 == 0
      && w / 256 == m.driveFault
  {
    Unpack(m.rsFaultBits % 64, if m.driveState == StateCode(Fault) then 1 else 0, m.driveFault);
  }

  lemma Unpack(bits: nat, flag: nat, cause: nat)
    requires bits < 64 && flag < 2
    ensures var w := bits + 64 * flag + 256 * cause;
      w % 64 == bits && w / 64 % 2 == flag && w / 128 % 2 == 0 && w / 256 == cause
  {
    var w := bits + 64 * flag + 256 * cause;
    assert w / 64 == 4 * cause + flag;
    assert w / 128 == 2 * cause;
  }

  /** A commanded joint whose motor reports back exactly what it was sent reads within half an LSB
      of the command. */
  lemma EchoedJointReadsBack(w: Wiring, c: JointCommand, m: TeleMotor, maxAgeUs: nat)
    requires Placed(w) && c.position.IsFinite() && c.velocity.IsFinite() && c.effort.IsFinite()
    requires EncodeTuple(ToSetpoint(w, c)).representable
    requires var t := EncodeTuple(ToSetpoint(w, c)); m.pos == t.pos && m.vel == t.vel && m.tau == t.tauFf
    ensures var f := ReadJoint(w, Some(m), maxAgeUs).feedback;
      && -0.00005 <= f.position - c.position.r <= 0.00005
      && -0.005 <= f.velocity - c.velocity.r <= 0.005
      && -0.005 <= f.effort - c.effort.r <= 0.005
  {
    hide EncodeTuple, ToSetpoint, DecodeI16, JointPosition, SignedValue;
    EchoReadsBack(w, c);
  }
}
