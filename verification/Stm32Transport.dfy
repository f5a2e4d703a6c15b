/** The host's transport: activation in three steps, one exchange per cycle, and release, over a
    channel and a robot that move on their own between any two of its actions. */
module Stm32Transports {
  import opened Wrappers
  import opened Framing
  import opened Telemetry
  import opened FixedPoint
  import opened BatchTypes
  import opened JointWiring
  import opened JointPolicy
  import opened DriveSm
  import opened Master
  import opened Latching
  import opened Channel
  import opened Rearming
  import opened MasterReports
  import opened MasterLinks
  import opened CommandFrames
  import opened Traffics

  const EPOCHS := 0x1_0000_0000
  const WIRE_AGE_SATURATION_US := 255_000

  datatype WriteStatus = Written | WriteTimeout | WriteError

  // ---- Requests ----

  /** Zero means that no command was applied, and is skipped. */
  function NextCmdSeq(s: u16): (r: u16)
    ensures r != 0
  {
    if s == 0xFFFF then 1 else s + 1
  }

  function PhaseSlot(phase: Phase, h: i16): CmdMotor {
    var request := PlanRequest(phase, false);
    if request.sendTuple then
      CmdMotor(request.request, h, 0, 0, 0, 0, true, request.useConfigGains)
    else PlainRequest(request)
  }

  function PhaseWant(phase: Phase, hold: seq<i16>): (want: seq<CmdMotor>)
    ensures |want| == |hold|
  {
    seq(|hold|, j requires 0 <= j < |hold| => PhaseSlot(phase, hold[j]))
  }

  function EncodeCommand(req: DriveReq, s: MitSetpoint): CmdMotor {
    var t := EncodeTuple(s);
    CmdMotor(req, t.pos, t.vel, t.kp, t.kd, t.tauFf, true, false)
  }

  function RunSlot(w: Wiring, c: JointCommand, isolated: bool, monitorOnly: bool): CmdMotor
    requires Placed(w)
  {
    if monitorOnly then PlainRequest(PlanRequest(ToRelease, false))
    else
      var request := PlanRequest(ToRun, isolated);
      if request.sendTuple then EncodeCommand(request.request, ToSetpoint(w, c))
      else PlainRequest(request)
  }

  /** What a running frame asks of a joint that is not isolated, when the wire can carry it: ENABLE, and
      the controller's own five quantities, each in its own field. */
  lemma RunSlotCarries(w: Wiring, c: JointCommand)
    requires Placed(w) && EncodeTuple(ToSetpoint(w, c)).representable
    ensures c.IsFinite()
    ensures var r := RunSlot(w, c, false, false);
      var turned := if w.directionSign == 1 then 1.0 else -1.0;
      && r.driveReq.Enable? && r.valid && !r.useConfigGains
      && Near(r.pos, 10000.0 * (turned * c.position.r + w.zeroOffset.r))
      && Near(r.vel, 100.0 * (turned * c.velocity.r)) && Near(r.tauFf, 100.0 * (turned * c.effort.r))
      && Near(r.kp, 10.0 * c.stiffness.r) && Near(r.kd, 100.0 * c.damping.r)
  {
    hide EncodeTuple, ToSetpoint, Near;
    EncodedFields(w, c);
  }

  /** And of one that is isolated, or in a read-only session: DISABLE, and nothing else. */
  lemma RunSlotOff(w: Wiring, c: JointCommand, isolated: bool, monitorOnly: bool)
    requires Placed(w) && (isolated || monitorOnly)
    ensures RunSlot(w, c, isolated, monitorOnly) == CmdMotor(Disable, 0, 0, 0, 0, 0, false, false)
  {
    hide EncodeTuple, ToSetpoint;
  }

  /** What a phase frame asks: while arming to hold the captured position at the motor's own gains;
      otherwise a bare request. */
  lemma PhaseSlots(h: i16)
    ensures PhaseSlot(ToArm, h) == CmdMotor(Enable, h, 0, 0, 0, 0, true, true)
    ensures PhaseSlot(ToClear, h) == CmdMotor(Reset, 0, 0, 0, 0, 0, false, false)
    ensures PhaseSlot(ToStop, h) == CmdMotor(Stop, 0, 0, 0, 0, 0, false, false)
    ensures PhaseSlot(ToRelease, h) == CmdMotor(Disable, 0, 0, 0, 0, 0, false, false)
  {
  }

  ghost predicate WantsRun(
    want: seq<CmdMotor>, joints: seq<Wiring>, cs: seq<JointCommand>, isolated: set<nat>,
    monitorOnly: bool)
  {
    && |want| <= |joints| && |want| <= |cs|
    && forall j :: 0 <= j < |want| ==>
      Placed(joints[j]) && want[j] == RunSlot(joints[j], cs[j], j in isolated, monitorOnly)
  }

  /** The wire can carry every tuple that will be acted on. */
  predicate Representable(
    joints: seq<Wiring>, cs: seq<JointCommand>, isolated: set<nat>, monitorOnly: bool)
    requires |joints| == |cs| && forall j :: 0 <= j < |joints| ==> Placed(joints[j])
  {
    monitorOnly || forall j :: 0 <= j < |joints| && j !in isolated ==>
      RepresentableAt(joints[j], cs[j])
  }

  predicate RepresentableAt(w: Wiring, c: JointCommand)
    requires Placed(w)
  {
    EncodeTuple(ToSetpoint(w, c)).representable
  }

  /** What every request of a phase is, as traffic. */
  function TrafficOf(phase: Phase): Traffic
    requires !phase.ToRun?
  {
    match phase
    case ToClear => Resetting
    case ToArm => Arming
    case _ => Harmless
  }

  /** The joints that a running frame enables. */
  function Unisolated(n: nat, isolated: set<nat>): set<nat> {
    set j: nat | j < n && j !in isolated
  }

  /** Read-only exchanges send nothing but DISABLE. */
  function ExchangeTraffic(monitorOnly: bool, n: nat, isolated: set<nat>): Traffic {
    if monitorOnly then Harmless else Running(Unisolated(n, isolated))
  }

  lemma PhaseFrameIs(
    phase: Phase, cmd: Command, l: Layout, index: seq<nat>, hold: seq<i16>)
    requires !phase.ToRun? && ValidLayout(l) && Indexed(l, index) && |hold| == |l.joints|
    requires Filled(cmd, l, index, PhaseWant(phase, hold))
    ensures Obeys(cmd, TrafficOf(phase), l.joints, hold)
  {
    hide ValidLayout, Indexed, Filled, Idle, AsksNoReset, AimsAt, Enables;
    var want := PhaseWant(phase, hold);
    assert forall r :: r in want ==> exists j :: 0 <= j < |hold| && r == PhaseSlot(phase, hold[j]);
    if TrafficOf(phase).Idles() {
      FilledIsIdle(cmd, l, index, want);
    }
    if !phase.ToClear? {
      FilledHasNoReset(cmd, l, index, want);
    }
    forall j | 0 <= j < |l.joints|
      ensures AimsAt(cmd, l.joints[j].chain, l.joints[j].motor, hold[j])
      ensures phase.ToArm? ==> EnablesJoint(cmd, l.joints[j])
    {
      FilledAims(cmd, l, index, want, j, hold[j]);
      FilledEnables(cmd, l, index, want, j);
    }
  }

  lemma RunFrameIs(
    cmd: Command, l: Layout, index: seq<nat>, want: seq<CmdMotor>, cs: seq<JointCommand>,
    isolated: set<nat>, monitorOnly: bool, hold: seq<i16>)
    requires ValidLayout(l) && Indexed(l, index) && |want| == |l.joints|
    requires Filled(cmd, l, index, want) && WantsRun(want, l.joints, cs, isolated, monitorOnly)
    ensures Obeys(cmd, ExchangeTraffic(monitorOnly, |l.joints|, isolated), l.joints, hold)
  {
    hide ValidLayout, Indexed, Filled, Idle, AsksNoReset, EncodeTuple, ToSetpoint, AimsJoints, Enables,
      QuietAt;
    FilledHasNoReset(cmd, l, index, want);
    if monitorOnly {
      FilledIsIdle(cmd, l, index, want);
      IdleAimsJoints(cmd, l.joints, hold);
    }
    forall j | 0 <= j < |l.joints| && !monitorOnly
      ensures AsksOnly(cmd, l.joints[j], j in Unisolated(|l.joints|, isolated))
    {
      assert want[j] == RunSlot(l.joints[j], cs[j], j in isolated, monitorOnly);
      FilledEnables(cmd, l, index, want, j);
    }
  }

  // ---- What one report means for an exchange ----

  predicate Dead(m: Option<TeleMotor>) {
    m.None? || Reports(m, Fault) || Reports(m, Absent)
  }

  function JointError(t: RobotTelemetry, w: Wiring, isolated: bool): Option<TransportError>
    requires FixedSize(t) && w.motor < MAX_MOTORS
  {
    var n := MotorCount(t, w.chain);
    if n.Some? && n.value <= w.motor then Some(ManifestMismatch)
    else if !isolated && Dead(MotorOf(t, w)) then Some(HardwareFault)
    else None
  }

  predicate RobotDown(t: RobotTelemetry) {
    t.robotState == ROBOT_HOST_LOST || t.robotState == ROBOT_PROTO_MISMATCH
  }

  /** The first joint in error decides. */
  ghost predicate FirstError(
    t: RobotTelemetry, joints: seq<Wiring>, isolated: set<nat>, error: TransportError)
    requires FixedSize(t) && AllPlacedJoints(joints)
  {
    exists j :: 0 <= j < |joints| && JointError(t, joints[j], j in isolated) == Some(error) &&
      NoErrorBefore(t, joints, isolated, j)
  }

  predicate NoErrorBefore(t: RobotTelemetry, joints: seq<Wiring>, isolated: set<nat>, n: nat)
    requires FixedSize(t) && AllPlacedJoints(joints) && n <= |joints|
  {
    forall j :: 0 <= j < n ==> JointError(t, joints[j], j in isolated).None?
  }

  predicate NonePresent(t: RobotTelemetry, joints: seq<Wiring>, n: nat)
    requires FixedSize(t) && AllPlacedJoints(joints) && n <= |joints|
  {
    forall j :: 0 <= j < n ==> MotorOf(t, joints[j]).None?
  }

  /** With no error at any joint: every joint not isolated has a live motor, neither FAULT nor
      ABSENT. */
  lemma NoErrorMeansAlive(t: RobotTelemetry, joints: seq<Wiring>, isolated: set<nat>)
    requires FixedSize(t) && AllPlacedJoints(joints) && NoErrorBefore(t, joints, isolated, |joints|)
    ensures forall j :: 0 <= j < |joints| && j !in isolated ==>
      && MotorOf(t, joints[j]).Some?
      && MotorOf(t, joints[j]).value.driveState != StateCode(Fault)
      && MotorOf(t, joints[j]).value.driveState != StateCode(Absent)
  {
    hide MotorOf, MotorCount;
    forall j | 0 <= j < |joints| && j !in isolated
      ensures MotorOf(t, joints[j]).Some?
      ensures MotorOf(t, joints[j]).value.driveState != StateCode(Fault)
      ensures MotorOf(t, joints[j]).value.driveState != StateCode(Absent)
    {
      assert JointError(t, joints[j], j in isolated).None?;
    }
  }

  datatype Interpretation =
    | Bad(error: TransportError)
    | Good(readings: seq<JointFeedback>, available: set<nat>, freshCount: nat)

  /** Each joint's reading, and which joints can be commanded. */
  ghost predicate ReadsAll(
    readings: seq<JointFeedback>, available: set<nat>, t: RobotTelemetry, joints: seq<Wiring>,
    isolated: set<nat>, maxAgeUs: nat, n: nat)
    requires FixedSize(t) && AllPlacedJoints(joints) && n <= |joints|
    requires forall j :: 0 <= j < |joints| ==> Placed(joints[j])
  {
    && |readings| == n
    && (forall j :: 0 <= j < n ==>
      readings[j] == ReadJoint(joints[j], MotorOf(t, joints[j]), maxAgeUs).feedback)
    && (forall j :: j in available <==>
      && 0 <= j < n && j !in isolated
      && ReadJoint(joints[j], MotorOf(t, joints[j]), maxAgeUs).commandable)
  }

  function FreshCount(readings: seq<JointFeedback>): nat {
    if readings == [] then 0
    else FreshCount(readings[..|readings| - 1]) + if readings[|readings| - 1].isFresh then 1 else 0
  }

  method Interpret(
    t: RobotTelemetry, joints: seq<Wiring>, isolated: set<nat>, maxAgeUs: nat)
    returns (r: Interpretation)
    requires FixedSize(t) && AllPlacedJoints(joints)
    requires forall j :: 0 <= j < |joints| ==> Placed(joints[j])
    ensures r.Bad? ==> r.error != NoError
    ensures r.Bad? ==>
      || FirstError(t, joints, isolated, r.error)
      || (r.error.IncompleteBatch? && NonePresent(t, joints, |joints|) &&
            NoErrorBefore(t, joints, isolated, |joints|))
    ensures r.Good? ==>
      && NoErrorBefore(t, joints, isolated, |joints|) && !NonePresent(t, joints, |joints|)
      && ReadsAll(r.readings, r.available, t, joints, isolated, maxAgeUs, |joints|)
      && r.freshCount == FreshCount(r.readings)
  {
    hide MotorOf, ReadJoint, Placed, MotorCount, Reports, ReadsAll, FreshCount, NonePresent;
    var readings: seq<JointFeedback> := [];
    var available: set<nat> := {};
    var present, freshCount := 0, 0;
    ReadsNone(t, joints, isolated, maxAgeUs);
    for j := 0 to |joints|
      invariant NoErrorBefore(t, joints, isolated, j)
      invariant present == 0 <==> NonePresent(t, joints, j)
      invariant ReadsAll(readings, available, t, joints, isolated, maxAgeUs, j)
      invariant freshCount == FreshCount(readings)
    {
      hide NoErrorBefore, FirstError, Dead;
      var w := joints[j];
      assert w in joints;
      var motorsOnChain := ChainMotorCount(t, w.chain);
      if motorsOnChain.Some? && motorsOnChain.value <= w.motor {
        ErrorHere(t, joints, isolated, j);
        return Bad(ManifestMismatch);
      }
      var motor := FindMotor(t, w.chain, w.motor);
      MotorIs(t, w);
      if j !in isolated && Dead(motor) {
        ErrorHere(t, joints, isolated, j);
        return Bad(HardwareFault);
      }
      var reading := ReadJoint(w, motor, maxAgeUs);
      ReadsNext(readings, available, t, joints, isolated, maxAgeUs, j);
      readings := readings + [reading.feedback];
      if motor.Some? {
        present := present + 1;
      }
      if reading.feedback.isFresh {
        freshCount := freshCount + 1;
      }
      if reading.commandable && j !in isolated {
        available := available + {j};
      }
    }
    if present == 0 {
      return Bad(IncompleteBatch);
    }
    r := Good(readings, available, freshCount);
  }

  lemma ReadsNone(t: RobotTelemetry, joints: seq<Wiring>, isolated: set<nat>, maxAgeUs: nat)
    requires FixedSize(t) && AllPlacedJoints(joints)
    requires forall j :: 0 <= j < |joints| ==> Placed(joints[j])
    ensures ReadsAll([], {}, t, joints, isolated, maxAgeUs, 0) && NonePresent(t, joints, 0)
    ensures FreshCount([]) == 0
  {
  }

  lemma ErrorHere(t: RobotTelemetry, joints: seq<Wiring>, isolated: set<nat>, j: nat)
    requires FixedSize(t) && AllPlacedJoints(joints) && j < |joints|
    requires NoErrorBefore(t, joints, isolated, j)
    ensures joints[j] in joints
    ensures JointError(t, joints[j], j in isolated).Some? ==>
      FirstError(t, joints, isolated, JointError(t, joints[j], j in isolated).value)
    ensures JointError(t, joints[j], j in isolated).None? ==> NoErrorBefore(t, joints, isolated, j + 1)
  {
    hide JointError;
  }

  lemma ReadsNext(
    readings: seq<JointFeedback>, available: set<nat>, t: RobotTelemetry, joints: seq<Wiring>,
    isolated: set<nat>, maxAgeUs: nat, j: nat)
    requires FixedSize(t) && AllPlacedJoints(joints) && j < |joints|
    requires forall i :: 0 <= i < |joints| ==> Placed(joints[i])
    requires ReadsAll(readings, available, t, joints, isolated, maxAgeUs, j)
    requires NoErrorBefore(t, joints, isolated, j)
    requires JointError(t, joints[j], j in isolated).None?
    ensures var r := ReadJoint(joints[j], MotorOf(t, joints[j]), maxAgeUs);
      && ReadsAll(readings + [r.feedback],
                  if r.commandable && j !in isolated then available + {j} else available,
                  t, joints, isolated, maxAgeUs, j + 1)
      && FreshCount(readings + [r.feedback]) == FreshCount(readings) + (if r.feedback.isFresh then 1 else 0)
    ensures NonePresent(t, joints, j + 1) <==> NonePresent(t, joints, j) && MotorOf(t, joints[j]).None?
    ensures NoErrorBefore(t, joints, isolated, j + 1)
  {
    hide ReadJoint, MotorOf, JointError, Placed;
    var r := ReadJoint(joints[j], MotorOf(t, joints[j]), maxAgeUs);
    assert (readings + [r.feedback])[..|readings|] == readings;
  }

  method PhaseFrame(
    l: Layout, index: seq<nat>, phase: Phase, hold: seq<i16>, cycleId: u16, cmdSeq: u16)
    returns (cmd: Command)
    requires ValidLayout(l) && Indexed(l, index) && |hold| == |l.joints|
    ensures Filled(cmd, l, index, PhaseWant(phase, hold))
    ensures cmd.cycleId == cycleId && cmd.cmdSeq == cmdSeq
  {
    hide ValidLayout, Indexed, Filled;
    cmd := BlankCommand(l, cycleId, cmdSeq);
    BlankIsFilled(cmd, l, index);
    ghost var want := PhaseWant(phase, hold);
    assert want[..0] == [];
    for j := 0 to |l.joints|
      invariant cmd.cycleId == cycleId && cmd.cmdSeq == cmdSeq
      invariant Filled(cmd, l, index, want[..j])
    {
      FillNext(cmd, l, index, want[..j], want[j]);
      var w := l.joints[j];
      cmd := SetSlot(cmd, index[w.chain], w.motor, PhaseSlot(phase, hold[j]));
      assert want[..j + 1] == want[..j] + [want[j]];
    }
    assert want[..|l.joints|] == want;
  }

  // ---- The log of commands handed to the link ----

  /** Every command added to the log asks exactly what the phase asks of each joint. */
  ghost predicate LogGrew(
    before: seq<Command>, after: seq<Command>, l: Layout, index: seq<nat>, phase: Phase,
    hold: seq<i16>)
    requires ValidLayout(l) && Indexed(l, index)
  {
    && before <= after && |hold| == |l.joints|
    && forall i :: |before| <= i < |after| ==> Filled(after[i], l, index, PhaseWant(phase, hold))
  }

  lemma LogGrows(
    before: seq<Command>, middle: seq<Command>, cmd: Command, l: Layout, index: seq<nat>,
    phase: Phase, hold: seq<i16>)
    requires ValidLayout(l) && Indexed(l, index) && LogGrew(before, middle, l, index, phase, hold)
    requires Filled(cmd, l, index, PhaseWant(phase, hold))
    ensures LogGrew(before, middle + [cmd], l, index, phase, hold)
  {
    hide Filled, ValidLayout, Indexed;
  }

  // ---- What a report shows of every joint ----

  lemma LayoutPlaced(l: Layout)
    requires ValidLayout(l)
    ensures |l.joints| > 0 && AllPlacedJoints(l.joints)
    ensures forall j :: 0 <= j < |l.joints| ==> Placed(l.joints[j])
  {
    hide Distinct, CountsSlots, Announces;
  }

  /** A delivered report since `from` had every joint in the state, heard from within the limit. */
  ghost predicate Showed(w: World, from: nat, l: Layout, state: DriveState, maxAgeUs: nat)
    requires Sound(w) && ValidLayout(l)
  {
    exists at :: from <= at < w.delivered && AllShow(w, at, l, state, maxAgeUs)
  }

  ghost predicate AllShow(w: World, at: nat, l: Layout, state: DriveState, maxAgeUs: nat)
    requires Sound(w) && ValidLayout(l) && at < |w.tele|
  {
    LayoutPlaced(l);
    AllReport(Report(w, at), l.joints, state, maxAgeUs)
  }

  /** A report since `from` found every motor standing DISABLED at its target. */
  ghost predicate Captured(w: World, from: nat, l: Layout, hold: seq<i16>, maxAgeUs: nat) {
    exists at :: from <= at < w.delivered <= |w.tele| && StoodAt(w.tele[at], l.joints, hold, maxAgeUs)
  }

  /** At every cycle from that very report on, each joint's motor, once armed, holds its target, as
      does everything still in flight for it. */
  ghost predicate HeldFrom(w: World, at: nat, l: Layout, hold: seq<i16>, maxAgeUs: nat)
    requires at < |w.tele|
  {
    StoodAt(w.tele[at], l.joints, hold, maxAgeUs) && AimedJoints(w, at, l.joints, hold)
  }

  /** So held, and ready to be armed. */
  ghost predicate Poised(
    w: World, from: nat, l: Layout, hold: seq<i16>, maxAgeUs: nat, slots: seq<Slot>)
  {
    exists at :: from <= at < w.delivered <= |w.tele| && PoisedAt(w, at, l, hold, maxAgeUs, slots)
  }

  ghost predicate PoisedAt(
    w: World, at: nat, l: Layout, hold: seq<i16>, maxAgeUs: nat, slots: seq<Slot>)
    requires at < |w.tele|
  {
    && HeldFrom(w, at, l, hold, maxAgeUs) && TakenAll(w.tele[at], l.joints, slots)
    && ReadyingAll(w, at, slots, l.joints, true)
  }

  ghost predicate ReadyingAll(
    w: World, at: nat, slots: seq<Slot>, joints: seq<Wiring>, open: bool)
  {
    && |slots| == |joints|
    && forall j :: 0 <= j < |joints| ==> ReadyingJoint(w, at, slots[j], j, joints, open)
  }

  /** Captured, but not all reported armed: each joint's motor, as the capturing report found it,
      either was never armed or is known to have been armed by this. */
  ghost predicate Unfinished(w: World, from: nat, l: Layout, slots: seq<Slot>) {
    exists at :: from <= at < w.delivered <= |w.tele| && UnfinishedAt(w, at, l, slots)
  }

  ghost predicate UnfinishedAt(w: World, at: nat, l: Layout, slots: seq<Slot>)
    requires at < |w.tele|
  {
    TakenAll(w.tele[at], l.joints, slots) && ReadyingAll(w, at, slots, l.joints, false)
  }

  /** Held since a report of every joint standing DISABLED, the motors being `slots` as that report
      found them; and launched, every one, by the time another showed them all ENABLED. */
  ghost predicate Holding(
    w: World, from: nat, l: Layout, hold: seq<i16>, maxAgeUs: nat, slots: seq<Slot>, enabled: set<nat>)
  {
    exists at, shown :: from <= at <= shown < w.delivered <= |w.tele| &&
      HoldingSince(w, at, shown, l, hold, maxAgeUs, slots, enabled)
  }

  ghost predicate HoldingSince(
    w: World, at: nat, shown: nat, l: Layout, hold: seq<i16>, maxAgeUs: nat, slots: seq<Slot>,
    enabled: set<nat>)
    requires at < |w.tele|
  {
    && HeldFrom(w, at, l, hold, maxAgeUs) && TakenAll(w.tele[at], l.joints, slots)
    && LaunchedAll(w, shown, slots, l.joints, enabled)
  }

  ghost predicate LaunchedAll(
    w: World, shown: nat, slots: seq<Slot>, joints: seq<Wiring>, enabled: set<nat>)
  {
    && |slots| == |joints|
    && forall j :: 0 <= j < |joints| ==> LaunchedJoint(w, shown, slots[j], j, joints, enabled)
  }

  ghost predicate AllTogether(w: World, joints: seq<Wiring>) {
    forall i: nat, j: nat :: i < |joints| && j < |joints| ==> TogetherJoints(w, i, j, joints)
  }

  lemma ShowedLater(w: World, v: World, at: nat, l: Layout, state: DriveState, maxAgeUs: nat)
    requires Sound(w) && Sound(v) && Extends(v, w) && ValidLayout(l) && at < |w.tele|
    ensures at < |v.tele| && Report(v, at) == Report(w, at)
  {
    hide View, Carriable;
    assert v.tele[at] == w.tele[at];
  }

  /** The world has moved on by itself. */
  ghost predicate Moved(w: World, v: World, cfg: Config) {
    exists moves: seq<Move> :: v == After(w, moves, cfg)
  }

  lemma {:induction false} AfterAppend(w: World, a: seq<Move>, b: seq<Move>, cfg: Config)
    ensures After(w, a + b, cfg) == After(After(w, a, cfg), b, cfg)
    decreases |a|
  {
    hide Apply;
    if a == [] {
      assert a + b == b;
    } else {
      AfterAppend(Apply(w, a[0], cfg), a[1..], b, cfg);
      assert (a + b)[1..] == a[1..] + b;
    }
  }

  lemma MovedChain(w: World, v: World, u: World, cfg: Config)
    ensures Moved(w, w, cfg)
    ensures Moved(w, v, cfg) && Moved(v, u, cfg) ==> Moved(w, u, cfg)
  {
    hide After;
    NotMoved(w, cfg);
    if Moved(w, v, cfg) && Moved(v, u, cfg) {
      var a :| v == After(w, a, cfg);
      var b :| u == After(v, b, cfg);
      AfterAppend(w, a, b, cfg);
    }
  }

  lemma MovedBy(w: World, v: World, moves: seq<Move>, cfg: Config)
    requires v == After(w, moves, cfg)
    ensures Moved(w, v, cfg)
  {
  }

  lemma NotMoved(w: World, cfg: Config)
    ensures Moved(w, w, cfg)
  {
    assert After(w, [], cfg) == w;
  }

  // ---- Which reports were looked at, and what they showed ----

  /** One of the reports looked at from the first `from` on showed every joint in the state. */
  ghost predicate Looked(
    w: World, looks: seq<nat>, from: nat, l: Layout, state: DriveState, maxAgeUs: nat)
    requires Sound(w) && ValidLayout(l)
  {
    exists i :: from <= i < |looks| && LookShows(w, looks[i], l, state, maxAgeUs)
  }

  ghost predicate LookShows(w: World, at: nat, l: Layout, state: DriveState, maxAgeUs: nat)
    requires Sound(w) && ValidLayout(l)
  {
    at < |w.tele| && AllShow(w, at, l, state, maxAgeUs)
  }

  /** The last of them showed some joint in FAULT. */
  ghost predicate LastLookFaulted(w: World, looks: seq<nat>, from: nat, l: Layout)
    requires Sound(w) && ValidLayout(l)
  {
    from < |looks| && looks[|looks| - 1] < |w.tele| && SomeFault(w, looks[|looks| - 1], l)
  }

  ghost predicate SomeFault(w: World, at: nat, l: Layout)
    requires Sound(w) && ValidLayout(l) && at < |w.tele|
  {
    LayoutPlaced(l);
    exists j :: 0 <= j < |l.joints| && Reports(MotorOf(Report(w, at), l.joints[j]), Fault)
  }

  ghost predicate LooksIn(looks: seq<nat>, w: World) {
    forall i :: 0 <= i < |looks| ==> looks[i] < |w.tele|
  }

  /** The last command handed over was not confirmed. */
  ghost predicate Unconfirmed(statuses: seq<WriteStatus>, from: nat) {
    from < |statuses| && !statuses[|statuses| - 1].Written?
  }

  lemma LookShowsLater(
    w: World, v: World, at: nat, l: Layout, state: DriveState, maxAgeUs: nat)
    requires Sound(w) && Sound(v) && Extends(v, w) && ValidLayout(l) && at < |w.tele|
    ensures LookShows(v, at, l, state, maxAgeUs) <==> LookShows(w, at, l, state, maxAgeUs)
  {
    hide ValidLayout, Sound, AllReport, View;
    ShowedLater(w, v, at, l, state, maxAgeUs);
  }

  /** What reports show does not change as the world moves on. */
  lemma LookedLater(
    w: World, v: World, looks: seq<nat>, from: nat, l: Layout, state: DriveState, maxAgeUs: nat)
    requires Sound(w) && Sound(v) && Extends(v, w) && ValidLayout(l) && LooksIn(looks, w)
    ensures LooksIn(looks, v)
    ensures Looked(v, looks, from, l, state, maxAgeUs) <==> Looked(w, looks, from, l, state, maxAgeUs)
  {
    hide ValidLayout, Sound, LookShows, Grows;
    forall i | from <= i < |looks|
      ensures LookShows(v, looks[i], l, state, maxAgeUs) <==> LookShows(w, looks[i], l, state, maxAgeUs)
    {
      LookShowsLater(w, v, looks[i], l, state, maxAgeUs);
    }
  }

  lemma OneMoreLook(
    w: World, looks: seq<nat>, at: nat, from: nat, l: Layout, state: DriveState, maxAgeUs: nat)
    requires Sound(w) && ValidLayout(l) && from <= |looks|
    ensures Looked(w, looks + [at], from, l, state, maxAgeUs) <==>
      Looked(w, looks, from, l, state, maxAgeUs) || LookShows(w, at, l, state, maxAgeUs)
  {
    hide ValidLayout, Sound, LookShows;
    var longer := looks + [at];
    assert longer[|looks|] == at;
    assert forall i :: 0 <= i < |looks| ==> longer[i] == looks[i];
  }

  /** The reports looked at showed every joint DISABLED, then DISABLED once more, then ENABLED: what
      clearing, capturing and arming each wait for. */
  ghost predicate ShowedInTurn(w: World, looks: seq<nat>, from: nat, l: Layout, maxAgeUs: nat)
    requires Sound(w) && ValidLayout(l)
  {
    exists c, h, a :: from <= c < h < a < |looks| &&
      LookShows(w, looks[c], l, Disabled, maxAgeUs) && LookShows(w, looks[h], l, Disabled, maxAgeUs) &&
      LookShows(w, looks[a], l, Enabled, maxAgeUs)
  }

  /** Why it stops: the link is down, a request was not confirmed, the last report showed a fault, or a
      step was waited for as often as it may be. */
  ghost predicate GaveUp(
    w: World, statuses: seq<WriteStatus>, sent: nat, looks: seq<nat>, from: nat, l: Layout, waited: int,
    patience: seq<nat>)
    requires Sound(w) && ValidLayout(l)
  {
    || w.failed || LastLookFaulted(w, looks, from, l) || (exists p :: p in patience && waited >= p)
    || (exists i :: sent <= i < |statuses| && !statuses[i].Written?)
  }

  lemma LooksInLater(looks: seq<nat>, w: World, v: World)
    requires Extends(v, w)
    ensures LooksIn(looks, w) ==> LooksIn(looks, v)
  {
    hide Grows;
  }

  lemma StepGaveUp(
    w: World, statuses: seq<WriteStatus>, sent: nat, sentAt: nat, looks: seq<nat>, from: nat, lookAt: nat,
    l: Layout, waited: int, stepWaited: int, p: nat, patience: seq<nat>)
    requires Sound(w) && ValidLayout(l) && sent <= sentAt && from <= lookAt && stepWaited <= waited
    requires p in patience
    requires
      || w.failed || Unconfirmed(statuses, sentAt) || LastLookFaulted(w, looks, lookAt, l)
      || stepWaited == p
    ensures GaveUp(w, statuses, sent, looks, from, l, waited, patience)
  {
    hide Sound, ValidLayout, SomeFault;
  }

  lemma TurnsLater(w: World, v: World, looks: seq<nat>, from: nat, l: Layout, maxAgeUs: nat)
    requires Sound(w) && Sound(v) && Extends(v, w) && ValidLayout(l) && LooksIn(looks, w)
    ensures ShowedInTurn(v, looks, from, l, maxAgeUs) <==> ShowedInTurn(w, looks, from, l, maxAgeUs)
  {
    hide ValidLayout, Sound, LookShows, Grows;
    forall i | 0 <= i < |looks|
      ensures LookShows(v, looks[i], l, Disabled, maxAgeUs) <==> LookShows(w, looks[i], l, Disabled, maxAgeUs)
      ensures LookShows(v, looks[i], l, Enabled, maxAgeUs) <==> LookShows(w, looks[i], l, Enabled, maxAgeUs)
    {
      LookShowsLater(w, v, looks[i], l, Disabled, maxAgeUs);
      LookShowsLater(w, v, looks[i], l, Enabled, maxAgeUs);
    }
  }

  lemma GaveUpLater(
    w: World, v: World, statuses: seq<WriteStatus>, longer: seq<WriteStatus>, sent: nat, looks: seq<nat>,
    from: nat, l: Layout, waited: int, longerWaited: int, patience: seq<nat>)
    requires Sound(w) && Sound(v) && Extends(v, w) && ValidLayout(l) && LooksIn(looks, w)
    requires statuses <= longer && waited <= longerWaited
    requires GaveUp(w, statuses, sent, looks, from, l, waited, patience)
    ensures GaveUp(v, longer, sent, looks, from, l, longerWaited, patience)
  {
    hide ValidLayout, Sound, View, Grows;
    if LastLookFaulted(w, looks, from, l) {
      ShowedLater(w, v, looks[|looks| - 1], l, Disabled, 0);
    }
    if i :| sent <= i < |statuses| && !statuses[i].Written? {
      assert longer[i] == statuses[i];
    }
  }

  /** The last look, and none before it, showed the state. */
  ghost predicate FirstLook(
    w: World, looks: seq<nat>, from: nat, l: Layout, state: DriveState, maxAgeUs: nat)
    requires Sound(w) && ValidLayout(l)
  {
    && from < |looks| && LookShows(w, looks[|looks| - 1], l, state, maxAgeUs)
    && !Looked(w, looks[..|looks| - 1], from, l, state, maxAgeUs)
  }

  lemma FirstLookLater(
    w: World, v: World, looks: seq<nat>, from: nat, l: Layout, state: DriveState, maxAgeUs: nat)
    requires Sound(w) && Sound(v) && Extends(v, w) && ValidLayout(l) && LooksIn(looks, w)
    requires from < |looks| && Looked(w, looks, from, l, state, maxAgeUs)
    requires !Looked(w, looks[..|looks| - 1], from, l, state, maxAgeUs)
    ensures FirstLook(v, looks, from, l, state, maxAgeUs) && LooksIn(looks, v)
    ensures Looked(v, looks, from, l, state, maxAgeUs)
    ensures !Looked(v, looks[..|looks| - 1], from, l, state, maxAgeUs)
  {
    hide ValidLayout, Sound, LookShows, Extends;
    var before := looks[..|looks| - 1];
    assert looks == before + [looks[|looks| - 1]];
    LookedLater(w, v, looks, from, l, state, maxAgeUs);
    LookedLater(w, v, before, from, l, state, maxAgeUs);
    OneMoreLook(v, before, looks[|looks| - 1], from, l, state, maxAgeUs);
  }

  /** The steps that succeeded, and the one that did not, leave no such turn. */
  lemma NotInTurn(
    w: World, looks1: seq<nat>, looks2: seq<nat>, looks3: seq<nat>, from: nat, l: Layout, maxAgeUs: nat)
    requires Sound(w) && ValidLayout(l) && from <= |looks1| && looks1 <= looks2 <= looks3
    requires
      || (looks1 == looks3 && !Looked(w, looks1, from, l, Disabled, maxAgeUs))
      || (looks2 == looks3 && FirstLook(w, looks1, from, l, Disabled, maxAgeUs) &&
          !Looked(w, looks2, |looks1|, l, Disabled, maxAgeUs))
      || (FirstLook(w, looks1, from, l, Disabled, maxAgeUs) &&
          FirstLook(w, looks2, |looks1|, l, Disabled, maxAgeUs) &&
          !Looked(w, looks3, |looks2|, l, Enabled, maxAgeUs))
    ensures !ShowedInTurn(w, looks3, from, l, maxAgeUs)
  {
    hide ValidLayout, Sound, LookShows;
    assert forall i :: 0 <= i < |looks1| ==> looks1[i] == looks3[i];
    assert forall i :: 0 <= i < |looks2| ==> looks2[i] == looks3[i];
    assert forall i :: 0 <= i < |looks1| - 1 ==> looks1[..|looks1| - 1][i] == looks3[i];
    assert forall i :: 0 <= i < |looks2| - 1 ==> looks2[..|looks2| - 1][i] == looks3[i];
  }

  lemma IsInTurn(
    w: World, looks1: seq<nat>, looks2: seq<nat>, looks3: seq<nat>, from: nat, l: Layout, maxAgeUs: nat)
    requires Sound(w) && ValidLayout(l) && looks1 <= looks2 <= looks3
    requires FirstLook(w, looks1, from, l, Disabled, maxAgeUs)
    requires FirstLook(w, looks2, |looks1|, l, Disabled, maxAgeUs)
    requires Looked(w, looks3, |looks2|, l, Enabled, maxAgeUs)
    ensures ShowedInTurn(w, looks3, from, l, maxAgeUs)
  {
    hide ValidLayout, Sound, LookShows;
    assert looks3[|looks1| - 1] == looks1[|looks1| - 1] && looks3[|looks2| - 1] == looks2[|looks2| - 1];
    var a :| |looks2| <= a < |looks3| && LookShows(w, looks3[a], l, Enabled, maxAgeUs);
  }

  /** Where a step of activation is to bring every joint. */
  function Target(phase: Phase): DriveState {
    if phase.ToClear? then Disabled else Enabled
  }

  lemma NothingLooked(w: World, looks: seq<nat>, l: Layout, state: DriveState, maxAgeUs: nat)
    requires Sound(w) && ValidLayout(l)
    ensures !Looked(w, looks, |looks|, l, state, maxAgeUs)
  {
  }

  lemma LookIsShowed(w: World, from: nat, at: nat, l: Layout, state: DriveState, maxAgeUs: nat)
    requires Sound(w) && ValidLayout(l) && from <= at < w.delivered && LookShows(w, at, l, state, maxAgeUs)
    ensures Showed(w, from, l, state, maxAgeUs)
  {
    hide ValidLayout, Sound, AllShow;
    SoundDelivered(w);
  }

  lemma ShowsIs(w: World, at: nat, l: Layout, state: DriveState, maxAgeUs: nat)
    requires Sound(w) && ValidLayout(l) && at < |w.tele|
    ensures AllPlacedJoints(l.joints)
    ensures LookShows(w, at, l, state, maxAgeUs) <==> AllReport(Report(w, at), l.joints, state, maxAgeUs)
  {
    hide ValidLayout, Sound, AllReport, View;
    LayoutPlaced(l);
  }

  lemma EvolvesExtends(w: World, v: World, t: Traffic, joints: seq<Wiring>, hold: seq<i16>)
    requires Evolves(w, v, t, joints, hold)
    ensures Extends(v, w) && Sound(v)
  {
  }

  class Stm32Transport {
    const layout: Layout
    const chainIndex: seq<nat>
    const maxAgeUs: nat
    const monitorOnly: bool
    const cfg: Config
    var active: bool
    var isolated: set<nat>
    var availability: set<nat>
    var availabilityEpoch: nat
    var cmdSeq: u16
    var lastCycle: u16
    var holdPos: seq<i16>
    var world: World
    // Every command handed to the link, and how each was taken; the reports looked at while activating,
    // and while releasing, by their place; and how often one was waited for.
    ghost var log: seq<Command>
    ghost var statuses: seq<WriteStatus>
    ghost var looks: seq<nat>
    ghost var checks: seq<nat>
    ghost var waits: nat

    ghost predicate Valid()
      reads this
    {
      && ValidLayout(layout) && Indexed(layout, chainIndex) && Sound(world)
      && |holdPos| == |layout.joints| && |statuses| == |log|
      && LooksIn(looks, world) && LooksIn(checks, world)
    }

    /** The joints that exchanges enable. */
    ghost function Open(): set<nat>
      reads this
    {
      if active && !monitorOnly then Unisolated(|layout.joints|, isolated) else {}
    }

    ghost function Sending(): Traffic
      reads this
    {
      ExchangeTraffic(monitorOnly, |layout.joints|, isolated)
    }

    /** A configured transport, facing a robot that may already be in any condition. */
    constructor (layout: Layout, maxAgeUs: nat, monitorOnly: bool, cfg: Config, world: World, lastCycle: u16)
      requires ValidLayout(layout) && Sound(world) && 0 < maxAgeUs < WIRE_AGE_SATURATION_US
      ensures Valid() && !active && this.world == world && this.layout == layout
      ensures this.maxAgeUs == maxAgeUs && this.monitorOnly == monitorOnly && this.cfg == cfg
    {
      hide ValidLayout, Sound;
      var index := IndexChains(layout);
      this.layout, this.chainIndex := layout, index;
      this.maxAgeUs, this.monitorOnly, this.cfg := maxAgeUs, monitorOnly, cfg;
      active, isolated, availability, availabilityEpoch := false, {}, {}, 0;
      cmdSeq, this.lastCycle, this.world := 0, lastCycle, world;
      holdPos := seq(|layout.joints|, _ => 0);
      log, statuses, looks, checks, waits := [], [], [], [], 0;
    }

    /** The robot and the link move on, in any way they can. */
    method Elapse()
      requires Valid()
      modifies this`world
      ensures Valid() && Moved(old(world), world, cfg)
      ensures forall t: Traffic, joints, hold :: Evolves(old(world), world, t, joints, hold)
    {
      hide ValidLayout, Indexed, Sound, Evolves, After, Grows;
      var moves: seq<Move> := *;
      ghost var before := world;
      world := After(world, moves, cfg);
      forall t: Traffic, joints, hold
        ensures Evolves(before, world, t, joints, hold)
      {
        TimePasses(before, moves, cfg, t, joints, hold);
      }
      AfterExtends(before, moves, cfg);
      MovedBy(before, world, moves, cfg);
    }

    /** Hands a command to the link. A write that is not confirmed may still have landed. */
    method Transmit(cmd: Command, ghost t: Traffic) returns (status: WriteStatus)
      requires Valid() && Obeys(cmd, t, layout.joints, holdPos)
      modifies this`world, this`log, this`statuses
      ensures Valid() && log == old(log) + [cmd] && statuses == old(statuses) + [status]
      ensures Evolves(old(world), world, t, layout.joints, holdPos)
      ensures status.Written? ==> Moved(Sent(old(world), cmd), world, cfg)
    {
      hide ValidLayout, Indexed, Sound, Evolves, After, Obeys, Sent;
      ghost var before := world;
      log := log + [cmd];
      status := *;
      statuses := statuses + [status];
      var landed: bool := *;
      if status.Written? || landed {
        CommandGoes(world, cmd, t, layout.joints, holdPos);
        SentTele(world, cmd);
        world := Sent(world, cmd);
        SentSound(before, cmd);
      } else {
        EvolvesSelf(world, t, layout.joints, holdPos);
      }
      ghost var between := world;
      if status.WriteError? {
        FailureIsMove(world, cfg, t, layout.joints, holdPos);
        world := world.(failed := true);
        EvolvesChain(before, between, world, t, layout.joints, holdPos);
        between := world;
      }
      Elapse();
      EvolvesChain(before, between, world, t, layout.joints, holdPos);
    }

    method SendPhaseFrame(phase: Phase, cycleId: u16) returns (ok: bool)
      requires Valid() && !phase.ToRun?
      modifies this`world, this`log, this`statuses, this`cmdSeq
      ensures Valid() && |statuses| == |old(statuses)| + 1 && ok == statuses[|old(statuses)|].Written?
      ensures old(statuses) <= statuses
      ensures Evolves(old(world), world, TrafficOf(phase), layout.joints, holdPos)
      ensures cmdSeq == NextCmdSeq(old(cmdSeq))
      ensures |log| == |old(log)| + 1 && log == old(log) + [log[|old(log)|]]
      ensures Filled(log[|old(log)|], layout, chainIndex, PhaseWant(phase, holdPos))
      ensures log[|old(log)|].cycleId == cycleId && log[|old(log)|].cmdSeq == cmdSeq
      ensures ok ==> Moved(Sent(old(world), log[|old(log)|]), world, cfg)
    {
      hide ValidLayout, Indexed, Sound, Evolves, Filled, Obeys, Moved, Sent;
      cmdSeq := NextCmdSeq(cmdSeq);
      var cmd := PhaseFrame(layout, chainIndex, phase, holdPos, cycleId, cmdSeq);
      PhaseFrameIs(phase, cmd, layout, chainIndex, holdPos);
      var status := Transmit(cmd, TrafficOf(phase));
      ok := status.Written?;
    }

    /** Waits for a frame delivered after the first `after` of them: the newest, if there is one. */
    method WaitForFrame(after: nat, ghost releasing: bool)
      returns (frame: Option<RobotTelemetry>, ghost at: nat)
      requires Valid()
      modifies this`world, this`looks, this`checks, this`waits
      ensures Valid() && waits == old(waits) + 1
      ensures forall t: Traffic, joints, hold :: Evolves(old(world), world, t, joints, hold)
      ensures frame.Some? <==> world.delivered > after
      ensures frame.Some? ==>
        after <= at == world.delivered - 1 < |world.tele| && frame.value == Report(world, at)
      ensures looks == if frame.Some? && !releasing then old(looks) + [at] else old(looks)
      ensures checks == if frame.Some? && releasing then old(checks) + [at] else old(checks)
    {
      hide ValidLayout, Indexed, Evolves, View, Moved;
      waits := waits + 1;
      Elapse();
      at := 0;
      if world.delivered > after {
        at := world.delivered - 1;
        if releasing {
          checks := checks + [at];
        } else {
          looks := looks + [at];
        }
        return Some(Report(world, world.delivered - 1)), at;
      }
      return None, at;
    }

    /** Streams a phase's request until every joint reaches its target, one fails, or patience runs
        out. It succeeds exactly when a report it looked at showed every joint there; when it does not,
        the link is down, a request was not confirmed, the last report showed a fault, or patience
        has run out. */
    method RunActivationStep(phase: Phase, patience: nat) returns (ok: bool)
      requires Valid() && (phase.ToClear? || phase.ToArm?)
      modifies this`world, this`log, this`statuses, this`looks, this`checks, this`waits, this`cmdSeq,
        this`lastCycle
      ensures Valid() && old(looks) <= looks && old(statuses) <= statuses && waits >= old(waits)
      ensures checks == old(checks) && |log| - |old(log)| >= waits - old(waits)
      ensures Evolves(old(world), world, TrafficOf(phase), layout.joints, holdPos)
      ensures LogGrew(old(log), log, layout, chainIndex, phase, holdPos)
      ensures ok ==> Showed(world, old(world).delivered, layout, Target(phase), maxAgeUs)
      ensures ok <==> Looked(world, looks, |old(looks)|, layout, Target(phase), maxAgeUs)
      ensures ok ==>
        |looks| > |old(looks)| &&
        !Looked(world, looks[..|looks| - 1], |old(looks)|, layout, Target(phase), maxAgeUs)
      ensures !ok ==>
        || world.failed || Unconfirmed(statuses, |old(statuses)|)
        || LastLookFaulted(world, looks, |old(looks)|, layout) || waits == old(waits) + patience
    {
      hide ValidLayout, Indexed, Sound, Evolves, Filled, AllReport, View, LogGrew, Looked, LookShows, SomeFault,
        AllShow, Extends;
      var t := TrafficOf(phase);
      EvolvesSelf(world, t, layout.joints, holdPos);
      LogStarts(log, layout, chainIndex, phase, holdPos);
      NothingLooked(world, looks, layout, Target(phase), maxAgeUs);
      var seen, cycle, left := world.delivered, lastCycle, patience;
      while left > 0
        invariant Valid() && seen >= old(world).delivered && 0 <= left <= patience
        invariant old(looks) <= looks && old(statuses) <= statuses && waits == old(waits) + patience - left
        invariant checks == old(checks) && |log| - |old(log)| >= waits - old(waits)
        invariant Evolves(old(world), world, t, layout.joints, holdPos)
        invariant LogGrew(old(log), log, layout, chainIndex, phase, holdPos)
        invariant !Looked(world, looks, |old(looks)|, layout, Target(phase), maxAgeUs)
      {
        left := left - 1;
        if world.failed {
          return false;
        }
        ghost var w0 := world;
        var sent := StepSend(phase, cycle, old(world), old(log));
        LookedLater(w0, world, looks, |old(looks)|, layout, Target(phase), maxAgeUs);
        if !sent {
          return false;
        }
        ghost var w1, looks1 := world, looks;
        var frame, verdict := StepJudge(phase, seen, old(world));
        LookedLater(w1, world, looks1, |old(looks)|, layout, Target(phase), maxAgeUs);
        if frame.Some? {
          OneMoreLook(world, looks1, looks[|looks1|], |old(looks)|, layout, Target(phase), maxAgeUs);
          assert looks == looks1 + [looks[|looks1|]] && looks[..|looks| - 1] == looks1;
          seen := world.delivered;
          cycle := frame.value.cycleId;
          match verdict
          case Reached =>
            lastCycle := cycle;
            LookIsShowed(world, old(world).delivered, looks[|looks1|], layout, Target(phase), maxAgeUs);
            return true;
          case Failed(_) =>
            return false;
          case Waiting(_) =>
        }
      }
      return false;
    }

    /** SendPhaseFrame, within an evolution that began at `start`. */
    method StepSend(phase: Phase, cycleId: u16, ghost start: World, ghost startLog: seq<Command>)
      returns (ok: bool)
      requires Valid() && !phase.ToRun?
      requires Evolves(start, world, TrafficOf(phase), layout.joints, holdPos)
      requires LogGrew(startLog, log, layout, chainIndex, phase, holdPos)
      modifies this`world, this`log, this`statuses, this`cmdSeq
      ensures Valid() && Extends(world, old(world)) && old(statuses) <= statuses
      ensures |statuses| == |old(statuses)| + 1 && ok == statuses[|old(statuses)|].Written?
      ensures |log| == |old(log)| + 1
      ensures Evolves(start, world, TrafficOf(phase), layout.joints, holdPos)
      ensures LogGrew(startLog, log, layout, chainIndex, phase, holdPos)
    {
      hide ValidLayout, Indexed, Sound, Evolves, Filled, LogGrew, Extends, Moved;
      ghost var before, logBefore := world, log;
      ok := SendPhaseFrame(phase, cycleId);
      EvolvesExtends(before, world, TrafficOf(phase), layout.joints, holdPos);
      EvolvesChain(start, before, world, TrafficOf(phase), layout.joints, holdPos);
      LogGrows(startLog, logBefore, log[|logBefore|], layout, chainIndex, phase, holdPos);
    }

    /** WaitForFrame, within an evolution that began at `start`; more frames may arrive before the
        frame is looked at. */
    method StepWait(after: nat, ghost t: Traffic, ghost start: World, ghost releasing: bool)
      returns (frame: Option<RobotTelemetry>, ghost at: nat)
      requires Valid() && Evolves(start, world, t, layout.joints, holdPos)
      modifies this`world, this`looks, this`checks, this`waits
      ensures Valid() && Evolves(start, world, t, layout.joints, holdPos) && Extends(world, old(world))
      ensures world.delivered >= old(world).delivered && waits == old(waits) + 1
      ensures frame.Some? ==>
        after <= at < world.delivered && at < |world.tele| && frame.value == Report(world, at)
      ensures looks == if frame.Some? && !releasing then old(looks) + [at] else old(looks)
      ensures checks == if frame.Some? && releasing then old(checks) + [at] else old(checks)
    {
      hide ValidLayout, Indexed, Sound, View, Moved, Grows;
      ghost var before := world;
      frame, at := WaitForFrame(after, releasing);
      ghost var between := world;
      assert Evolves(before, between, t, layout.joints, holdPos);
      Elapse();
      assert Evolves(between, world, t, layout.joints, holdPos);
      EvolvesChain(before, between, world, t, layout.joints, holdPos);
      EvolvesChain(start, before, world, t, layout.joints, holdPos);
      if frame.Some? {
        ShowedLater(between, world, at, layout, Disabled, maxAgeUs);
      }
    }

    /** StepWait, and the verdict on the report if there is one. */
    method StepJudge(phase: Phase, after: nat, ghost start: World)
      returns (frame: Option<RobotTelemetry>, verdict: JointPolicy.Verdict)
      requires Valid() && (phase.ToClear? || phase.ToArm?)
      requires Evolves(start, world, TrafficOf(phase), layout.joints, holdPos)
      modifies this`world, this`looks, this`checks, this`waits
      ensures Valid() && Extends(world, old(world)) && waits == old(waits) + 1 && checks == old(checks)
      ensures Evolves(start, world, TrafficOf(phase), layout.joints, holdPos)
      ensures frame.None? ==> looks == old(looks)
      ensures frame.Some? ==>
        && |looks| == |old(looks)| + 1 && looks[..|old(looks)|] == old(looks)
        && after <= looks[|old(looks)|] < world.delivered && looks[|old(looks)|] < |world.tele|
        && (verdict.Reached? <==> LookShows(world, looks[|old(looks)|], layout, Target(phase), maxAgeUs))
        && (verdict.Failed? ==> SomeFault(world, looks[|old(looks)|], layout))
    {
      hide ValidLayout, Indexed, Sound, Evolves, AllReport, View, Extends, Judged;
      LayoutPlaced(layout);
      verdict := Waiting(0);
      ghost var at;
      frame, at := StepWait(after, TrafficOf(phase), start, false);
      if frame.Some? {
        var graceOver: bool := *;
        if phase.ToClear? {
          verdict := JudgeClearing(frame.value, layout.joints, maxAgeUs, graceOver);
          ReachedExactly(verdict, frame.value, layout.joints, Disabled, maxAgeUs, graceOver);
        } else {
          verdict := JudgeArming(frame.value, layout.joints, maxAgeUs);
          ReachedExactly(verdict, frame.value, layout.joints, Enabled, maxAgeUs, true);
        }
      }
    }

    /** Records every joint's position once, from the first fresh report that shows them all
        DISABLED. Sends nothing. It succeeds exactly when it looked at such a report, and otherwise the
        link is down or patience has run out. */
    method CaptureHold(patience: nat) returns (ok: bool)
      requires Valid()
      modifies this`world, this`looks, this`checks, this`waits, this`holdPos, this`lastCycle
      ensures Valid() && old(looks) <= looks && waits >= old(waits) && checks == old(checks)
      ensures Evolves(old(world), world, Harmless, layout.joints, old(holdPos))
      ensures ok ==> Captured(world, old(world).delivered, layout, holdPos, maxAgeUs)
      ensures !ok ==> holdPos == old(holdPos)
      ensures ok <==> Looked(world, looks, |old(looks)|, layout, Disabled, maxAgeUs)
      ensures ok ==>
        |looks| > |old(looks)| &&
        !Looked(world, looks[..|looks| - 1], |old(looks)|, layout, Disabled, maxAgeUs)
      ensures !ok ==> world.failed || waits == old(waits) + patience
    {
      hide ValidLayout, Indexed, Sound, Evolves, View, StoodAt, Looked, LookShows, AllShow, Extends, AllReport;
      LayoutPlaced(layout);
      EvolvesSelf(world, Harmless, layout.joints, holdPos);
      NothingLooked(world, looks, layout, Disabled, maxAgeUs);
      var seen, left := world.delivered, patience;
      while left > 0 && !world.failed
        invariant Valid() && seen >= old(world).delivered && holdPos == old(holdPos) && 0 <= left <= patience
        invariant old(looks) <= looks && waits == old(waits) + patience - left && checks == old(checks)
        invariant Evolves(old(world), world, Harmless, layout.joints, old(holdPos))
        invariant !Looked(world, looks, |old(looks)|, layout, Disabled, maxAgeUs)
      {
        left := left - 1;
        ghost var w0, looks0 := world, looks;
        var frame, at := StepWait(seen, Harmless, old(world), false);
        LookedLater(w0, world, looks0, |old(looks)|, layout, Disabled, maxAgeUs);
        if frame.Some? {
          OneMoreLook(world, looks0, at, |old(looks)|, layout, Disabled, maxAgeUs);
          assert looks[..|looks| - 1] == looks0;
          seen := world.delivered;
          var captured := CaptureFrom(frame.value, layout.joints, maxAgeUs);
          ShowsIs(world, at, layout, Disabled, maxAgeUs);
          if captured.Some? {
            ReportsCarriable(world, at);
            SoundDelivered(world);
            HoldsAreTrue(world.tele[at], layout.joints, captured.value, maxAgeUs);
            holdPos, lastCycle := captured.value, frame.value.cycleId;
            return true;
          }
        }
      }
      return false;
    }

    /** Clear, capture, arm: never merged into one request. */
    method ArmMotors(clearPatience: nat, capturePatience: nat, armPatience: nat)
      returns (ok: bool, ghost slots: seq<Slot>)
      requires Valid()
      modifies this`world, this`log, this`statuses, this`looks, this`checks, this`waits, this`cmdSeq,
        this`lastCycle, this`holdPos, this`availability
      ensures Valid() && checks == old(checks) && old(statuses) <= statuses
      ensures ok <==> ShowedInTurn(world, looks, |old(looks)|, layout, maxAgeUs)
      ensures !ok ==> GaveUp(world, statuses, |old(statuses)|, looks, |old(looks)|, layout,
                             waits - old(waits), [clearPatience, capturePatience, armPatience])
      ensures ok && old(SettledJoints(world, world.delivered, layout.joints)) ==>
        && AllNoReset(world) && AllTogether(world, layout.joints)
        && Holding(world, old(world).delivered, layout, holdPos, maxAgeUs, slots,
                   Unisolated(|layout.joints|, {}))
      ensures ok ==>
        && Showed(world, old(world).delivered, layout, Disabled, maxAgeUs)
        && Showed(world, old(world).delivered, layout, Enabled, maxAgeUs)
        && (forall j: nat :: j in availability <==> j < |layout.joints|)
      ensures Extends(world, old(world)) && ArmingLog(old(log), log, layout, chainIndex, holdPos)
      ensures !ok && old(SettledJoints(world, world.delivered, layout.joints)) ==>
        LeftBehind(world, old(world).delivered, layout, slots)
    {
      hide ValidLayout, Indexed, Sound, Evolves, View, SettledJoints, AllNoReset, Captured, Poised, Holding,
        Showed, LogGrew, Extends, ArmingLog, AllTogether, Unfinished, Looked, LookShows, LooksIn,
        LastLookFaulted, Unconfirmed;
      ghost var w0, log0, hold0, from, sent, waits0 := world, log, holdPos, |looks|, |statuses|, waits;
      ghost var patience := [clearPatience, capturePatience, armPatience];
      assert patience[0] == clearPatience && patience[1] == capturePatience && patience[2] == armPatience;
      slots := [];
      ok := RunActivationStep(ToClear, clearPatience);
      ghost var w1, log1, looks1, waits1 := world, log, looks, waits;
      assert LooksIn(looks1, w1);
      AfterClearing(w0, w1, layout.joints, hold0);
      ArmingLogClears(log0, log1, layout, chainIndex, hold0, hold0);
      if !ok {
        NotInTurn(world, looks1, looks1, looks1, from, layout, maxAgeUs);
        StepGaveUp(world, statuses, sent, sent, looks, from, from, layout, waits - waits0, waits - waits0,
                   clearPatience, patience);
        return;
      }
      ok := CaptureHold(capturePatience);
      ghost var w2, looks2, sent2, waits2 := world, looks, |statuses|, waits;
      assert LooksIn(looks2, w2);
      EvolvesExtends(w1, w2, Harmless, layout.joints, hold0);
      slots := AfterCapture(w0, w1, w2, layout, hold0, holdPos, maxAgeUs);
      ArmingLogClears(log0, log1, layout, chainIndex, hold0, holdPos);
      FirstLookLater(w1, w2, looks1, from, layout, Disabled, maxAgeUs);
      if !ok {
        NotInTurn(world, looks1, looks2, looks2, from, layout, maxAgeUs);
        StepGaveUp(world, statuses, sent, |statuses|, looks, from, |looks|, layout, waits - waits0,
                   waits - waits1, capturePatience, patience);
        slots := [];
        return;
      }
      ok := RunActivationStep(ToArm, armPatience);
      EvolvesExtends(w2, world, Arming, layout.joints, holdPos);
      LooksInLater(looks1, w1, w2);
      FirstLookLater(w2, world, looks1, from, layout, Disabled, maxAgeUs);
      FirstLookLater(w2, world, looks2, |looks1|, layout, Disabled, maxAgeUs);
      if ok {
        IsInTurn(world, looks1, looks2, looks, from, layout, maxAgeUs);
      } else {
        NotInTurn(world, looks1, looks2, looks, from, layout, maxAgeUs);
        StepGaveUp(world, statuses, sent, sent2, looks, from, |looks2|, layout, waits - waits0,
                   waits - waits2, armPatience, patience);
      }
      AfterArming(w0, w2, world, layout, holdPos, maxAgeUs, ok, slots);
      ShowedPersists(w1, w2, Harmless, layout.joints, hold0, w0.delivered, layout, Disabled, maxAgeUs);
      ShowedPersists(w2, world, Arming, layout.joints, holdPos, w0.delivered, layout, Disabled, maxAgeUs);
      ArmingLogArms(log0, log1, log, layout, chainIndex, holdPos);
      if ok {
        availability := AllJoints(|layout.joints|);
      }
    }

    /** Streams STOP or DISABLE until a report shows every motor DISABLED. It is confirmed exactly when it
        looked at such a report; otherwise it names the first joint that the last report did not show
        DISABLED, and the link is down, a request was not confirmed, or patience has run out. */
    method ReleaseMotors(phase: Phase, patience: nat) returns (stuck: Option<nat>)
      requires Valid() && (phase.ToStop? || phase.ToRelease?)
      modifies this`world, this`log, this`statuses, this`looks, this`checks, this`waits, this`cmdSeq
      ensures Valid() && looks == old(looks) && old(checks) <= checks && old(statuses) <= statuses
      ensures |log| - |old(log)| >= waits - old(waits) >= 0
      ensures patience > 0 && !old(world).failed ==> |log| > |old(log)|
      ensures Evolves(old(world), world, Harmless, layout.joints, holdPos)
      ensures LogGrew(old(log), log, layout, chainIndex, phase, holdPos)
      ensures stuck.None? ==> ShowedOff(world, old(world).delivered, layout)
      ensures stuck.None? <==> CheckedOff(world, checks, |old(checks)|, layout)
      ensures stuck.Some? ==>
        stuck.value < |layout.joints| && NamesStuck(world, checks, |old(checks)|, layout, stuck.value)
      ensures stuck.Some? ==>
        world.failed || Unconfirmed(statuses, |old(statuses)|) || waits == old(waits) + patience
    {
      hide ValidLayout, Indexed, Sound, Evolves, Filled, View, LogGrew, CheckedOff, NamesStuck, Extends, AllOff;
      LayoutPlaced(layout);
      EvolvesSelf(world, Harmless, layout.joints, holdPos);
      LogStarts(log, layout, chainIndex, phase, holdPos);
      NothingChecked(world, checks, layout);
      var seen, cycle, left := world.delivered, lastCycle, patience;
      var unconfirmed: nat := 0;
      while left > 0 && !world.failed
        invariant Valid() && seen >= old(world).delivered && unconfirmed < |layout.joints|
        invariant 0 <= left <= patience
        invariant looks == old(looks) && old(checks) <= checks && old(statuses) <= statuses
        invariant waits == old(waits) + patience - left && |log| - |old(log)| >= patience - left
        invariant left == patience ==> world == old(world)
        invariant Evolves(old(world), world, Harmless, layout.joints, holdPos)
        invariant LogGrew(old(log), log, layout, chainIndex, phase, holdPos)
        invariant !CheckedOff(world, checks, |old(checks)|, layout)
        invariant NamesStuck(world, checks, |old(checks)|, layout, unconfirmed)
      {
        left := left - 1;
        ghost var w0 := world;
        var sent := StepSend(phase, cycle, old(world), old(log));
        CheckedLater(w0, world, checks, |old(checks)|, layout, unconfirmed);
        if !sent {
          return Some(unconfirmed);
        }
        ghost var w1, checks1 := world, checks;
        var frame, at := StepWait(seen, Harmless, old(world), true);
        CheckedLater(w1, world, checks1, |old(checks)|, layout, unconfirmed);
        if frame.Some? {
          seen := world.delivered;
          cycle := frame.value.cycleId;
          var notOff := FirstNotOff(frame.value, layout.joints);
          OneMoreCheck(world, checks1, at, |old(checks)|, layout);
          OffIs(world, at, layout);
          if notOff.None? {
            OffIsShowed(world, old(world).delivered, at, layout);
            return None;
          }
          unconfirmed := notOff.value;
          StuckAt(world, checks, |old(checks)|, layout, unconfirmed);
        }
      }
      return Some(unconfirmed);
    }

    /** Activation. If no earlier ENABLE for a joint is in flight, and none took effect after the
        oldest report not yet delivered, then success means that no RESET is left anywhere, that each
        motor was captured standing DISABLED where, from that report on, it holds whenever it is
        armed, and that what armed it is known. A failed activation ends in DISABLE frames alone, and
        names a joint unless a report showed them all DISABLED; and it leaves no motor armed by
        anything but itself. */
    method Activate(
      clearPatience: nat, capturePatience: nat, armPatience: nat, releasePatience: nat)
      returns (ok: bool, stuck: Option<nat>, ghost slots: seq<Slot>)
      requires Valid()
      modifies this
      ensures Valid() && active == (old(active) || ok) && Extends(world, old(world))
      ensures old(active) ==> ok && world == old(world) && log == old(log) && isolated == old(isolated)
      ensures !old(active) && old(world).failed ==> !ok && world == old(world) && log == old(log)
      ensures !old(active) && !old(world).failed && !monitorOnly ==>
        (ok <==> ShowedInTurn(world, looks, |old(looks)|, layout, maxAgeUs))
      ensures !old(active) && !old(world).failed && monitorOnly ==> ok
      ensures !ok && !old(world).failed ==>
        GaveUp(world, statuses, |old(statuses)|, looks, |old(looks)|, layout, waits - old(waits),
               [clearPatience, capturePatience, armPatience])
      ensures !old(active) && ok ==> isolated == {} && availabilityEpoch == 0
      ensures !old(active) && ok && monitorOnly ==>
        availability == {} && log == old(log) && world == old(world).(resetSeen := false)
      ensures !old(active) && ok && !monitorOnly ==>
        && (forall j: nat :: j in availability <==> j < |layout.joints|)
        && Showed(world, old(world).delivered, layout, Disabled, maxAgeUs)
        && Showed(world, old(world).delivered, layout, Enabled, maxAgeUs)
        && ArmingLog(old(log), log, layout, chainIndex, holdPos)
      ensures !old(active) && ok && !monitorOnly &&
              old(SettledJoints(world, world.delivered, layout.joints)) ==>
        && AllNoReset(world) && AllTogether(world, layout.joints)
        && Holding(world, old(world).delivered, layout, holdPos, maxAgeUs, slots, Open())
      ensures !ok && !old(world).failed && old(SettledJoints(world, world.delivered, layout.joints)) ==>
        LeftBehind(world, old(world).delivered, layout, slots)
      ensures !ok && !old(world).failed ==>
        && ReleasedLog(old(log), log, layout, chainIndex, holdPos)
        && (stuck.None? ==> ShowedOff(world, old(world).delivered, layout))
        && (stuck.Some? ==> stuck.value < |layout.joints|)
        && (stuck.None? <==> CheckedOff(world, checks, |old(checks)|, layout))
    {
      hide ValidLayout, Indexed, Sound, Evolves, View, SettledJoints, AllNoReset, Holding, Showed, LogGrew,
        Extends, ArmingLog, AllTogether, ReleasedLog, ShowedOff, LeftBehind, ShowedInTurn, GaveUp, CheckedOff,
        NamesStuck, LooksIn, Unconfirmed;
      stuck, slots := None, [];
      ExtendsSelf(world);
      if active {
        return true, None, [];
      }
      if world.failed {
        return false, None, [];
      }
      ForgetReset(world, layout.joints);
      LooksInLater(looks, world, world.(resetSeen := false));
      LooksInLater(checks, world, world.(resetSeen := false));
      world := world.(resetSeen := false);
      isolated := {};
      if monitorOnly {
        availability, availabilityEpoch, active := {}, 0, true;
        return true, None, [];
      }
      ghost var w0, log0 := world, log;
      ok, slots := ArmMotors(clearPatience, capturePatience, armPatience);
      if !ok {
        ghost var w1, log1, statuses1, waits1 := world, log, statuses, waits;
        stuck := ReleaseMotors(ToRelease, releasePatience);
        ReleasedLogIs(log0, log1, log, layout, chainIndex, holdPos);
        ReleasedLater(w0, w1, world, layout, holdPos);
        LeftBehindKept(w1, world, w0.delivered, layout, holdPos, slots);
        ExtendsChain(old(world), w0, world);
        EvolvesExtends(w1, world, Harmless, layout.joints, holdPos);
        TurnsLater(w1, world, looks, |old(looks)|, layout, maxAgeUs);
        GaveUpLater(w1, world, statuses1, statuses, |old(statuses)|, looks, |old(looks)|, layout,
                    waits1 - old(waits), waits - old(waits), [clearPatience, capturePatience, armPatience]);
        return;
      }
      ExtendsChain(old(world), w0, world);
      availabilityEpoch, active := 0, true;
    }

    /** Ramps down, and falls back to an immediate DISABLE: STOP frames alone, then DISABLE frames alone.
        It is confirmed exactly when a report it looked at showed every joint DISABLED; otherwise the
        link is down, a request was not confirmed, or the patience for both has run out. */
    method Deactivate(stopPatience: nat, releasePatience: nat) returns (stuck: Option<nat>)
      requires Valid()
      modifies this`active, this`world, this`log, this`statuses, this`looks, this`checks, this`waits,
        this`cmdSeq
      ensures Valid() && !active && looks == old(looks) && old(checks) <= checks && old(statuses) <= statuses
      ensures !old(active) ==> world == old(world) && log == old(log) && stuck.None?
      ensures Evolves(old(world), world, Harmless, layout.joints, holdPos)
      ensures old(active) && stuck.None? ==> ShowedOff(world, old(world).delivered, layout)
      ensures old(active) ==>
        && StoppedLog(old(log), log, layout, chainIndex, holdPos)
        && (stuck.None? <==> CheckedOff(world, checks, |old(checks)|, layout))
        && (stuck.Some? ==>
          || world.failed || (exists i :: |old(statuses)| <= i < |statuses| && !statuses[i].Written?)
          || waits == old(waits) + stopPatience + releasePatience)
      ensures old(active) && stopPatience > 0 && !old(world).failed ==>
        |log| > |old(log)| && Filled(log[|old(log)|], layout, chainIndex, PhaseWant(ToStop, holdPos))
    {
      hide ValidLayout, Indexed, Sound, Evolves, ShowedOff, CheckedOff, NamesStuck, Filled, AllOff, Extends,
        LooksIn;
      if !active {
        EvolvesSelf(world, Harmless, layout.joints, holdPos);
        return None;
      }
      active := false;
      ghost var w0, log0 := world, log;
      stuck := ReleaseMotors(ToStop, stopPatience);
      ghost var w1, log1, checks1, statuses1 := world, log, checks, statuses;
      if stuck.Some? {
        stuck := ReleaseMotors(ToRelease, releasePatience);
        EvolvesExtends(w1, world, Harmless, layout.joints, holdPos);
        CheckedLater(w1, world, checks1, |old(checks)|, layout, 0);
        CheckedJoin(world, checks1, checks, |old(checks)|, layout);
        EvolvesChain(w0, w1, world, Harmless, layout.joints, holdPos);
        DeliveredLater(w0, w1, layout.joints, holdPos);
        ShowedOffEarlier(world, w0.delivered, w1.delivered, layout);
        EvolvesExtends(w0, w1, Harmless, layout.joints, holdPos);
        FailedLater(w1, world);
      } else {
        LogStarts(log, layout, chainIndex, ToRelease, holdPos);
      }
      assert StoppedAt(log0, log1, log, layout, chainIndex, holdPos);
    }

    /** One exchange: send every joint its request, wait for a newer report, and read it. The error says
        exactly how far it came, in this order: not active; a command of the wrong length; a link or a
        master already in trouble; the write; the wait; the robot; the joints; and whether the wire could
        carry what was asked. */
    method Exchange(command: CommandBatch, feedback: FeedbackBatch, patience: nat)
      returns (error: TransportError, result: FeedbackBatch, reported: nat)
      requires Valid()
      modifies this`world, this`log, this`statuses, this`waits, this`cmdSeq, this`lastCycle,
        this`availability, this`availabilityEpoch
      ensures Valid()
      ensures Evolves(old(world), world, Sending(), layout.joints, holdPos)
      ensures var tries := active && |command.joints| == |layout.joints| &&
          !old(world).failed && !old(world).resetSeen;
        && (!tries ==>
          && world == old(world) && log == old(log) && statuses == old(statuses)
          && cmdSeq == old(cmdSeq) && lastCycle == old(lastCycle))
        && (!tries ==>
          error == if !active then NotActive
                   else if |command.joints| != |layout.joints| then ManifestMismatch else HardwareFault)
        && (tries ==>
          && SentRun(old(log), log, layout, chainIndex, command.joints, isolated, monitorOnly)
          && |statuses| == |old(statuses)| + 1 && statuses[..|old(log)|] == old(statuses)
          && log[|old(log)|].cmdSeq == cmdSeq == NextCmdSeq(old(cmdSeq))
          && log[|old(log)|].cycleId == old(lastCycle)
          && AnswerIs(error, statuses[|old(log)|], world, old(lastCycle), layout, isolated,
                      CanCarry(layout, command.joints, isolated, monitorOnly))
          && (statuses[|old(log)|].Written? ==> Moved(Sent(old(world), log[|old(log)|]), world, cfg))
          && (statuses[|old(log)|].Written? && !HasNewer(world, old(lastCycle)) && !world.failed ==>
                waits == old(waits) + patience)
          && lastCycle == (if statuses[|old(log)|].Written? && HasNewer(world, old(lastCycle))
                           then Newest(world).cycleId else old(lastCycle)))
      ensures Reads(error, command.sequence, feedback, result, reported, old(availability), availability,
                    old(availabilityEpoch), availabilityEpoch)
      ensures error == NoError ==>
        && Answered(world, layout, isolated, maxAgeUs, old(lastCycle), lastCycle, result)
        && |command.joints| == |layout.joints|
        && CanCarry(layout, command.joints, isolated, monitorOnly)
    {
      hide ValidLayout, Indexed, Sound, Evolves, View, Filled, Representable, SentRun, AnswerIs, Answered,
        CanCarry, Moved, Sent, HasNewer, Newest, Reads, LooksIn;
      result, reported := feedback, 0;
      NothingRead(NotActive, command.sequence, feedback, availability, availabilityEpoch);
      NothingRead(ManifestMismatch, command.sequence, feedback, availability, availabilityEpoch);
      NothingRead(HardwareFault, command.sequence, feedback, availability, availabilityEpoch);
      EvolvesSelf(world, Sending(), layout.joints, holdPos);
      if !active {
        return NotActive, feedback, 0;
      }
      if |command.joints| != |layout.joints| {
        return ManifestMismatch, feedback, 0;
      }
      if world.failed || world.resetSeen {
        return HardwareFault, feedback, 0;
      }
      error, result, reported := Try(command, feedback, patience);
    }

    /** The frame goes out; if it was taken, the answer is read. */
    method Try(command: CommandBatch, feedback: FeedbackBatch, patience: nat)
      returns (error: TransportError, result: FeedbackBatch, reported: nat)
      requires Valid() && active && |command.joints| == |layout.joints| && !world.failed && !world.resetSeen
      modifies this`world, this`log, this`statuses, this`waits, this`cmdSeq, this`lastCycle,
        this`availability, this`availabilityEpoch
      ensures Valid()
      ensures Evolves(old(world), world, Sending(), layout.joints, holdPos)
      ensures SentRun(old(log), log, layout, chainIndex, command.joints, isolated, monitorOnly)
      ensures |statuses| == |old(statuses)| + 1 && statuses[..|old(log)|] == old(statuses)
      ensures log[|old(log)|].cmdSeq == cmdSeq == NextCmdSeq(old(cmdSeq))
      ensures log[|old(log)|].cycleId == old(lastCycle)
      ensures AnswerIs(error, statuses[|old(log)|], world, old(lastCycle), layout, isolated,
                       CanCarry(layout, command.joints, isolated, monitorOnly))
      ensures statuses[|old(log)|].Written? ==> Moved(Sent(old(world), log[|old(log)|]), world, cfg)
      ensures statuses[|old(log)|].Written? && !HasNewer(world, old(lastCycle)) && !world.failed ==>
        waits == old(waits) + patience
      ensures lastCycle ==
        if statuses[|old(log)|].Written? && HasNewer(world, old(lastCycle))
        then Newest(world).cycleId else old(lastCycle)
      ensures Reads(error, command.sequence, feedback, result, reported, old(availability), availability,
                    old(availabilityEpoch), availabilityEpoch)
      ensures error == NoError ==>
        && Answered(world, layout, isolated, maxAgeUs, old(lastCycle), lastCycle, result)
        && CanCarry(layout, command.joints, isolated, monitorOnly)
    {
      hide ValidLayout, Indexed, Sound, Evolves, View, Filled, WantsRun, Representable, SentRun, AnswerIs,
        Answered, CanCarry, Moved, Sent, HasNewer, Newest, Reads, LooksIn;
      cmdSeq := NextCmdSeq(cmdSeq);
      ghost var w0, log0, last0 := world, log, lastCycle;
      var sent, representable := SendRunFrame(command.joints);
      if !sent.Written? {
        error, result, reported := if sent.WriteTimeout? then Timeout else HardwareFault, feedback, 0;
        NotWrittenIs(error, sent, world, last0, layout, isolated, representable);
        NothingRead(error, command.sequence, feedback, availability, availabilityEpoch);
        return;
      }
      ghost var w1 := world;
      error, result, reported := ReadAnswer(command.sequence, feedback, patience, representable, w0);
      MovedChain(Sent(w0, log[|log0|]), w1, world, cfg);
    }

    /** Waits for a newer report, and reads it. */
    method ReadAnswer(
      sequence: nat, feedback: FeedbackBatch, patience: nat, representable: bool, ghost start: World)
      returns (error: TransportError, result: FeedbackBatch, reported: nat)
      requires Valid() && Evolves(start, world, Sending(), layout.joints, holdPos)
      modifies this`world, this`waits, this`lastCycle, this`availability, this`availabilityEpoch
      ensures Valid() && Moved(old(world), world, cfg)
      ensures Evolves(start, world, Sending(), layout.joints, holdPos)
      ensures AnswerIs(error, Written, world, old(lastCycle), layout, isolated, representable)
      ensures !HasNewer(world, old(lastCycle)) && !world.failed ==> waits == old(waits) + patience
      ensures lastCycle ==
        if HasNewer(world, old(lastCycle)) then Newest(world).cycleId else old(lastCycle)
      ensures Reads(error, sequence, feedback, result, reported, old(availability), availability,
                    old(availabilityEpoch), availabilityEpoch)
      ensures error == NoError ==>
        representable && Answered(world, layout, isolated, maxAgeUs, old(lastCycle), lastCycle, result)
    {
      hide ValidLayout, Indexed, Sound, Evolves, View, AnswerIs, ReadsAll, NoErrorBefore, NonePresent,
        RobotDown, FirstError, Newer, FreshCount, Moved, HasNewer, Newest, Reads, LooksIn;
      LayoutPlaced(layout);
      NothingRead(Timeout, sequence, feedback, availability, availabilityEpoch);
      ghost var last0 := lastCycle;
      var frame, at := AwaitNewer(lastCycle, patience, start);
      if frame.None? {
        error := if world.failed then HardwareFault else Timeout;
        NotHeardIs(error, world, last0, layout, isolated, representable);
        NothingRead(error, sequence, feedback, availability, availabilityEpoch);
        return error, feedback, 0;
      }
      lastCycle := frame.value.cycleId;
      if world.resetSeen || RobotDown(frame.value) {
        DownIs(world, last0, layout, isolated, representable);
        NothingRead(HardwareFault, sequence, feedback, availability, availabilityEpoch);
        return HardwareFault, feedback, 0;
      }
      var r := Interpret(frame.value, layout.joints, isolated, maxAgeUs);
      if r.Bad? {
        BadIs(r.error, world, last0, layout, isolated, representable);
        NothingRead(r.error, sequence, feedback, availability, availabilityEpoch);
        return r.error, feedback, 0;
      }
      GoodIs(world, last0, layout, isolated, representable);
      if !representable {
        NothingRead(ManifestMismatch, sequence, feedback, availability, availabilityEpoch);
        return ManifestMismatch, feedback, 0;
      }
      ghost var available0, epoch0 := availability, availabilityEpoch;
      if r.available != availability {
        availability, availabilityEpoch := r.available, (availabilityEpoch + 1) % EPOCHS;
      }
      result := FeedbackBatch(sequence, r.readings, availability, availabilityEpoch);
      AnswerIsRead(world, at, layout, isolated, maxAgeUs, last0, lastCycle, result);
      SomethingRead(sequence, feedback, result, r.freshCount, available0, epoch0);
      return NoError, result, r.freshCount;
    }

    method SendRunFrame(commands: seq<JointCommand>) returns (status: WriteStatus, representable: bool)
      requires Valid() && |commands| == |layout.joints|
      modifies this`world, this`log, this`statuses
      ensures Valid() && statuses == old(statuses) + [status]
      ensures Evolves(old(world), world, Sending(), layout.joints, holdPos)
      ensures SentRun(old(log), log, layout, chainIndex, commands, isolated, monitorOnly)
      ensures log[|old(log)|].cmdSeq == cmdSeq && log[|old(log)|].cycleId == lastCycle
      ensures representable == CanCarry(layout, commands, isolated, monitorOnly)
      ensures status.Written? ==> Moved(Sent(old(world), log[|old(log)|]), world, cfg)
    {
      hide ValidLayout, Indexed, Sound, Evolves, Filled, WantsRun, Representable, Obeys, Moved, Sent;
      var cmd;
      ghost var want;
      cmd, representable, want :=
        RunFrame(layout, chainIndex, commands, isolated, monitorOnly, lastCycle, cmdSeq);
      RunFrameIs(cmd, layout, chainIndex, want, commands, isolated, monitorOnly, holdPos);
      status := Transmit(cmd, Sending());
      assert log[|old(log)|] == cmd;
    }

    /** Looks at the newest report until it is ahead of `after`, the link fails, or patience runs
        out. */
    method AwaitNewer(after: u16, patience: nat, ghost start: World)
      returns (frame: Option<RobotTelemetry>, ghost at: nat)
      requires Valid() && Evolves(start, world, Sending(), layout.joints, holdPos)
      modifies this`world, this`waits
      ensures Valid() && Moved(old(world), world, cfg)
      ensures Evolves(start, world, Sending(), layout.joints, holdPos)
      ensures frame.Some? <==> HasNewer(world, after)
      ensures frame.Some? ==>
        && at == world.delivered - 1 && at < |world.tele| && frame.value == Report(world, at)
        && frame.value == Newest(world) && Newer(frame.value.cycleId, after)
      ensures frame.None? && !world.failed ==> waits == old(waits) + patience
    {
      hide ValidLayout, Indexed, Evolves, View, Newer, Moved, Extends;
      at := 0;
      var left := patience;
      MovedChain(world, world, world, cfg);
      while true
        invariant Valid() && 0 <= left <= patience && waits == old(waits) + patience - left
        invariant Evolves(start, world, Sending(), layout.joints, holdPos)
        invariant Moved(old(world), world, cfg)
        decreases left
      {
        if world.delivered > 0 {
          at := world.delivered - 1;
          var newest := Report(world, world.delivered - 1);
          if Newer(newest.cycleId, after) {
            return Some(newest), at;
          }
        }
        if world.failed || left == 0 {
          return None, at;
        }
        left := left - 1;
        waits := waits + 1;
        ghost var before := world;
        Elapse();
        MovedChain(old(world), before, world, cfg);
        assert Evolves(before, world, Sending(), layout.joints, holdPos);
        EvolvesChain(start, before, world, Sending(), layout.joints, holdPos);
      }
    }

    /** Any sequence of calls but activation. With no RESET in flight or in the mailbox, as a
        successful activation leaves it, every motor in FAULT, or reported in FAULT on the way, is
        in FAULT at the end, unless its slave has started again. Every joint that was launched stays
        so: once reported unarmed it is never armed again. In a read-only session with no ENABLE in
        flight nothing becomes armed. */
    method Serve(calls: seq<Call>)
      requires Valid()
      modifies this
      ensures Valid() && Extends(world, old(world)) && holdPos == old(holdPos)
      ensures KeepsFaults(old(world), world)
      ensures Serves(old(world), world, layout.joints, old(Open()), Open())
      ensures monitorOnly ==> KeepsUnarmed(old(world), world)
      ensures active <==> old(active) && !Deactivates(calls)
      ensures isolated == old(isolated) + Isolates(calls, |layout.joints|)
    {
      hide ValidLayout, Indexed, Sound, Evolves, KeepsFaults, Extends, KeepsUnarmed, Serves;
      ghost var start, open := world, Open();
      ServesSelf(world, layout.joints, open, monitorOnly);
      for i := 0 to |calls|
        invariant Valid() && Extends(world, start) && KeepsFaults(start, world) && holdPos == old(holdPos)
        invariant Serves(start, world, layout.joints, open, Open())
        invariant monitorOnly ==> KeepsUnarmed(start, world)
        invariant active <==> old(active) && !Deactivates(calls[..i])
        invariant isolated == old(isolated) + Isolates(calls[..i], |layout.joints|)
      {
        ghost var before, now := world, Open();
        assert calls[..i + 1][..i] == calls[..i];
        ghost var t := Answer(calls[i]);
        ServesOn(start, before, world, t, layout.joints, holdPos, open, now, Open(), monitorOnly);
      }
      assert calls[..|calls|] == calls;
    }

    /** One call; `t` is what it sends. */
    method Answer(call: Call) returns (ghost t: Traffic)
      requires Valid()
      modifies this
      ensures Valid() && holdPos == old(holdPos)
      ensures Evolves(old(world), world, t, layout.joints, holdPos) && Open() <= old(Open())
      ensures
        || world == old(world) || (t.Harmless? && Open() == {})
        || (t.Running? && t.enabled == Open() == old(Open()))
      ensures monitorOnly ==> world == old(world) || t.Harmless?
      ensures active <==> old(active) && !call.CallDeactivate?
      ensures isolated == old(isolated) + IsolatesOne(call, |layout.joints|)
    {
      hide ValidLayout, Indexed, Sound, Evolves, SentRun, Answered, CanCarry, FreshCount;
      t := Sending();
      match call
      case CallExchange(command, feedback, patience) =>
        var _, _, _ := Exchange(command, feedback, patience);
      case CallDeactivate(stopPatience, releasePatience) =>
        var _ := Deactivate(stopPatience, releasePatience);
        t := Harmless;
      case CallDisable(joint) =>
        EvolvesSelf(world, t, layout.joints, holdPos);
        var _ := RequestJointDisable(joint);
      case CallDisableAll =>
        EvolvesSelf(world, t, layout.joints, holdPos);
        var _ := RequestAllDisable();
      case CallWait =>
        t := if monitorOnly then Harmless else Running(Open());
        ghost var before := world;
        Elapse();
        assert Evolves(before, world, t, layout.joints, holdPos);
    }

    method RequestJointDisable(joint: nat) returns (accepted: bool)
      modifies this`isolated
      ensures isolated == if joint < |layout.joints| then old(isolated) + {joint} else old(isolated)
      ensures accepted == (joint < |layout.joints| && active)
    {
      if joint >= |layout.joints| {
        return false;
      }
      isolated := isolated + {joint};
      return active;
    }

    method RequestAllDisable() returns (accepted: bool)
      modifies this`isolated
      ensures forall j: nat :: j in isolated <==> j in old(isolated) || j < |layout.joints|
      ensures accepted == active
    {
      var all := AllJoints(|layout.joints|);
      isolated := isolated + all;
      return active;
    }
  }

  datatype Call =
    | CallExchange(command: CommandBatch, feedback: FeedbackBatch, patience: nat)
    | CallDeactivate(stopPatience: nat, releasePatience: nat)
    | CallDisable(joint: nat)
    | CallDisableAll
    | CallWait

  predicate Deactivates(calls: seq<Call>) {
    exists i :: 0 <= i < |calls| && calls[i].CallDeactivate?
  }

  /** The joints the calls isolate, of n. */
  function Isolates(calls: seq<Call>, n: nat): set<nat> {
    if calls == [] then {}
    else Isolates(calls[..|calls| - 1], n) + IsolatesOne(calls[|calls| - 1], n)
  }

  function IsolatesOne(call: Call, n: nat): set<nat> {
    match call
    case CallDisable(joint) => if joint < n then {joint} else {}
    case CallDisableAll => Unisolated(n, {})
    case _ => {}
  }

  /** What a session keeps of its arming: every launched joint stays launched, closed if it is no
      longer enabled; and whatever is asked for only together with a joint enabled to the end
      still is. */
  ghost predicate Serves(w: World, v: World, joints: seq<Wiring>, was: set<nat>, now: set<nat>) {
    && now <= was
    && (forall from: nat, x: Slot, j: nat ::
      LaunchedJoint(w, from, x, j, joints, was) ==> LaunchedJoint(v, from, x, j, joints, now))
    && (forall i: nat, j: nat :: i in now && TogetherJoints(w, i, j, joints) ==>
      TogetherJoints(v, i, j, joints))
  }

  lemma ServesSelf(w: World, joints: seq<Wiring>, open: set<nat>, monitorOnly: bool)
    ensures Serves(w, w, joints, open, open) && Extends(w, w) && KeepsFaults(w, w) && KeepsUnarmed(w, w)
  {
    hide LaunchedJoint, TogetherJoints, FaultsSince, QuietMail, ArmedIn, AllNoReset;
    FaultsSinceSelf(w);
    ExtendsSelf(w);
  }

  lemma Narrowed(w: World, from: nat, x: Slot, j: nat, joints: seq<Wiring>, was: set<nat>, now: set<nat>)
    requires LaunchedJoint(w, from, x, j, joints, was) && now <= was
    ensures LaunchedJoint(w, from, x, j, joints, now)
  {
    hide Launched;
    if j in was && j !in now {
      LaunchedCloses(w, from, x);
    }
  }

  /** One more call: traffic that enables what is enabled after it, or leaves the world alone. */
  lemma ServesOn(
    start: World, w: World, v: World, t: Traffic, joints: seq<Wiring>, hold: seq<i16>, open: set<nat>,
    was: set<nat>, now: set<nat>, monitorOnly: bool)
    requires Serves(start, w, joints, open, was) && Evolves(w, v, t, joints, hold) && now <= was
    requires v == w || (t.Harmless? && now == {}) || (t.Running? && t.enabled == now == was)
    requires Extends(w, start) && KeepsFaults(start, w)
    requires monitorOnly ==> KeepsUnarmed(start, w) && (v == w || t.Harmless?)
    ensures Serves(start, v, joints, open, now) && Extends(v, start) && KeepsFaults(start, v)
    ensures monitorOnly ==> KeepsUnarmed(start, v)
  {
    hide LaunchedJoint, TogetherJoints, Sound, FaultsSince, AllNoReset, QuietMail, ArmedIn, Extends;
    ExtendsChain(start, w, v);
    if AllNoReset(start) && v != w {
      ExtendsTele(w, v);
      FaultsSinceChain(start, w, v);
    }
    forall from: nat, x: Slot, j: nat | LaunchedJoint(start, from, x, j, joints, open)
      ensures LaunchedJoint(v, from, x, j, joints, now)
    {
      assert LaunchedJoint(w, from, x, j, joints, was);
      Narrowed(w, from, x, j, joints, was, now);
    }
  }

  lemma ExtendsSelf(w: World)
    ensures Extends(w, w)
  {
    hide Grows;
    GrowsChain(w.master.chains, w.master.chains, w.master.chains);
  }

  lemma ExtendsChain(w: World, v: World, u: World)
    requires Extends(v, w) && Extends(u, v)
    ensures Extends(u, w)
  {
    hide Grows;
    GrowsChain(w.master.chains, v.master.chains, u.master.chains);
  }

  lemma ExtendsTele(w: World, v: World)
    requires Extends(v, w)
    ensures w.tele <= v.tele && w.delivered <= v.delivered
  {
  }

  /** One command was handed to the link: each joint's running request in its slot. */
  ghost predicate SentRun(
    before: seq<Command>, after: seq<Command>, l: Layout, index: seq<nat>, cs: seq<JointCommand>,
    isolated: set<nat>, monitorOnly: bool)
    requires ValidLayout(l) && Indexed(l, index)
  {
    && |after| == |before| + 1 && after == before + [after[|before|]]
    && exists want ::
      && |want| == |l.joints| && WantsRun(want, l.joints, cs, isolated, monitorOnly)
      && Filled(after[|before|], l, index, want)
  }

  ghost predicate CanCarry(l: Layout, cs: seq<JointCommand>, isolated: set<nat>, monitorOnly: bool)
    requires ValidLayout(l) && |cs| == |l.joints|
  {
    LayoutPlaced(l);
    Representable(l.joints, cs, isolated, monitorOnly)
  }

  /** A delivered report, newer than the last one read, shows a robot that is up, no joint in
      error and some joint present; the feedback is its reading. */
  ghost predicate AnsweredBy(
    w: World, at: nat, l: Layout, isolated: set<nat>, maxAgeUs: nat, before: u16, cycle: u16,
    f: FeedbackBatch)
    requires Sound(w) && ValidLayout(l) && at < |w.tele|
  {
    LayoutPlaced(l);
    var t := Report(w, at);
    && at < w.delivered && t.cycleId == cycle && Newer(cycle, before) && !RobotDown(t)
    && NoErrorBefore(t, l.joints, isolated, |l.joints|) && !NonePresent(t, l.joints, |l.joints|)
    && ReadsAll(f.joints, f.availability, t, l.joints, isolated, maxAgeUs, |l.joints|)
  }

  ghost predicate Answered(
    w: World, l: Layout, isolated: set<nat>, maxAgeUs: nat, before: u16, cycle: u16,
    f: FeedbackBatch)
    requires Sound(w) && ValidLayout(l)
  {
    exists at :: 0 <= at < |w.tele| && AnsweredBy(w, at, l, isolated, maxAgeUs, before, cycle, f)
  }

  /** What becomes of the feedback: nothing on any error; on success it echoes the command's sequence, and
      carries the availability and its epoch, which counts how often that has changed. */
  ghost predicate Reads(
    error: TransportError, sequence: nat, feedback: FeedbackBatch, result: FeedbackBatch, reported: nat,
    availabilityWas: set<nat>, availability: set<nat>, epochWas: nat, epoch: nat)
  {
    if error != NoError
    then result == feedback && reported == 0 && availability == availabilityWas && epoch == epochWas
    else
      && result.sequence == sequence && result.availability == availability && result.epoch == epoch
      && reported == FreshCount(result.joints)
      && epoch == if availability == availabilityWas then epochWas else (epochWas + 1) % 0x1_0000_0000
  }

  lemma NothingRead(
    error: TransportError, sequence: nat, feedback: FeedbackBatch, availability: set<nat>, epoch: nat)
    requires error != NoError
    ensures Reads(error, sequence, feedback, feedback, 0, availability, availability, epoch, epoch)
  {
  }

  lemma SomethingRead(
    sequence: nat, feedback: FeedbackBatch, result: FeedbackBatch, reported: nat, availabilityWas: set<nat>,
    epochWas: nat)
    requires result.sequence == sequence && reported == FreshCount(result.joints)
    requires result.epoch ==
      if result.availability == availabilityWas then epochWas else (epochWas + 1) % 0x1_0000_0000
    ensures Reads(NoError, sequence, feedback, result, reported, availabilityWas, result.availability,
                  epochWas, result.epoch)
  {
  }

  lemma AnswerIsRead(
    w: World, at: nat, l: Layout, isolated: set<nat>, maxAgeUs: nat, before: u16, cycle: u16,
    f: FeedbackBatch)
    requires Sound(w) && ValidLayout(l) && at < |w.tele|
    requires AnsweredBy(w, at, l, isolated, maxAgeUs, before, cycle, f)
    ensures Answered(w, l, isolated, maxAgeUs, before, cycle, f)
  {
    hide Sound, ValidLayout, AnsweredBy;
  }

  // ---- Which error an exchange returns ----

  /** The newest report the host has been given. */
  function Newest(w: World): (t: RobotTelemetry)
    requires Sound(w) && w.delivered > 0
    ensures FixedSize(t)
  {
    Report(w, w.delivered - 1)
  }

  /** And it is ahead of the last one read. */
  ghost predicate HasNewer(w: World, before: u16)
    requires Sound(w)
  {
    w.delivered > 0 && Newer(Newest(w).cycleId, before)
  }

  /** The master itself, as it was reported: it hears its host, and every slave matches. */
  predicate Up(s: State) {
    !s.hostLost && forall c :: 0 <= c < |s.chains| ==> !s.chains[c].mismatch
  }

  lemma DownIsNotUp(s: State)
    requires Carriable(s.chains)
    ensures RobotDown(View(s)) <==> !Up(s)
  {
    hide View;
    ReportOfRobot(s);
  }

  /** The write was taken, a newer report came, no restart was noticed since, and the master it reports
      is up. */
  ghost predicate Reached(w: World, status: WriteStatus, before: u16)
    requires Sound(w)
  {
    status.Written? && HasNewer(w, before) && !w.resetSeen && Up(w.tele[w.delivered - 1])
  }

  ghost predicate Clean(w: World, before: u16, l: Layout, isolated: set<nat>)
    requires Sound(w) && ValidLayout(l) && HasNewer(w, before)
  {
    LayoutPlaced(l);
    NoErrorBefore(Newest(w), l.joints, isolated, |l.joints|)
  }

  ghost predicate Absentees(w: World, before: u16, l: Layout)
    requires Sound(w) && ValidLayout(l) && HasNewer(w, before)
  {
    LayoutPlaced(l);
    NonePresent(Newest(w), l.joints, |l.joints|)
  }

  ghost predicate FirstIs(w: World, before: u16, l: Layout, isolated: set<nat>, error: TransportError)
    requires Sound(w) && ValidLayout(l) && HasNewer(w, before)
  {
    LayoutPlaced(l);
    FirstError(Newest(w), l.joints, isolated, error)
  }

  /** Each error, exactly when it is returned once a frame has been handed to the link. */
  ghost predicate AnswerIs(
    error: TransportError, status: WriteStatus, w: World, before: u16, l: Layout, isolated: set<nat>,
    carried: bool)
    requires Sound(w) && ValidLayout(l)
  {
    var reached := Reached(w, status, before);
    && (error.NoError? <==>
      reached && Clean(w, before, l, isolated) && !Absentees(w, before, l) && carried)
    && (error.Timeout? <==>
      status.WriteTimeout? || (status.Written? && !HasNewer(w, before) && !w.failed))
    && (error.HardwareFault? <==>
      || status.WriteError? || (status.Written? && !HasNewer(w, before) && w.failed)
      || (status.Written? && HasNewer(w, before) && !reached)
      || (reached && FirstIs(w, before, l, isolated, HardwareFault)))
    && (error.ManifestMismatch? <==>
      reached &&
      (FirstIs(w, before, l, isolated, ManifestMismatch) ||
       (Clean(w, before, l, isolated) && !Absentees(w, before, l) && !carried)))
    && (error.IncompleteBatch? <==>
      reached && Clean(w, before, l, isolated) && Absentees(w, before, l))
    && !error.NotActive? && !error.SequenceMismatch? && !error.FramingError?
  }

  /** One joint's error, in terms of what is reported: a chain that announces too few motors for it; a
      joint not isolated whose motor is not reported, or in the states the wire calls 8, FAULT, and 2,
      ABSENT. */
  lemma JointErrorIs(t: RobotTelemetry, w: Wiring, isolated: bool)
    requires FixedSize(t) && w.motor < MAX_MOTORS
    ensures var short := MotorCount(t, w.chain).Some? && MotorCount(t, w.chain).value <= w.motor;
      var m := Found(t, w.chain, w.motor);
      && (JointError(t, w, isolated) == Some(ManifestMismatch) <==> short)
      && (JointError(t, w, isolated) == Some(HardwareFault) <==>
        !short && !isolated && (m.None? || m.value.driveState == 8 || m.value.driveState == 2))
      && (JointError(t, w, isolated).Some? ==>
        JointError(t, w, isolated).value in {ManifestMismatch, HardwareFault})
  {
    hide Found, MotorCount;
  }

  lemma FirstErrorIsOne(
    t: RobotTelemetry, joints: seq<Wiring>, isolated: set<nat>, a: TransportError, b: TransportError)
    requires FixedSize(t) && AllPlacedJoints(joints)
    requires FirstError(t, joints, isolated, a)
    ensures FirstError(t, joints, isolated, b) ==> a == b
    ensures !NoErrorBefore(t, joints, isolated, |joints|) && a in {ManifestMismatch, HardwareFault}
  {
    hide JointError;
    var i :| 0 <= i < |joints| && JointError(t, joints[i], i in isolated) == Some(a) &&
      NoErrorBefore(t, joints, isolated, i);
    assert joints[i] in joints;
    JointErrorIs(t, joints[i], i in isolated);
  }

  lemma NotWrittenIs(
    error: TransportError, status: WriteStatus, w: World, before: u16, l: Layout, isolated: set<nat>,
    carried: bool)
    requires Sound(w) && ValidLayout(l) && !status.Written?
    requires error == if status.WriteTimeout? then Timeout else HardwareFault
    ensures AnswerIs(error, status, w, before, l, isolated, carried)
  {
    hide Sound, ValidLayout, HasNewer;
  }

  lemma NotHeardIs(
    error: TransportError, w: World, before: u16, l: Layout, isolated: set<nat>, carried: bool)
    requires Sound(w) && ValidLayout(l) && !HasNewer(w, before)
    requires error == if w.failed then HardwareFault else Timeout
    ensures AnswerIs(error, Written, w, before, l, isolated, carried)
  {
    hide Sound, ValidLayout, HasNewer;
  }

  lemma DownIs(w: World, before: u16, l: Layout, isolated: set<nat>, carried: bool)
    requires Sound(w) && ValidLayout(l) && HasNewer(w, before)
    requires w.resetSeen || RobotDown(Newest(w))
    ensures AnswerIs(HardwareFault, Written, w, before, l, isolated, carried)
  {
    hide ValidLayout, RobotDown, Up, View, FirstError, NoErrorBefore, NonePresent, Carriable;
    ReportsCarriable(w, w.delivered - 1);
    DownIsNotUp(w.tele[w.delivered - 1]);
  }

  lemma BadIs(
    error: TransportError, w: World, before: u16, l: Layout, isolated: set<nat>, carried: bool)
    requires Sound(w) && ValidLayout(l) && HasNewer(w, before) && !w.resetSeen && !RobotDown(Newest(w))
    requires AllPlacedJoints(l.joints)
    requires
      || FirstError(Newest(w), l.joints, isolated, error)
      || (error.IncompleteBatch? && NonePresent(Newest(w), l.joints, |l.joints|) &&
            NoErrorBefore(Newest(w), l.joints, isolated, |l.joints|))
    ensures AnswerIs(error, Written, w, before, l, isolated, carried)
  {
    hide ValidLayout, RobotDown, Up, View, FirstError, NoErrorBefore, NonePresent, Carriable;
    ReportsCarriable(w, w.delivered - 1);
    DownIsNotUp(w.tele[w.delivered - 1]);
    var t := Newest(w);
    if FirstError(t, l.joints, isolated, error) {
      FirstErrorIsOne(t, l.joints, isolated, error, HardwareFault);
      FirstErrorIsOne(t, l.joints, isolated, error, ManifestMismatch);
    } else {
      NoFirstError(t, l.joints, isolated);
    }
  }

  lemma NoFirstError(t: RobotTelemetry, joints: seq<Wiring>, isolated: set<nat>)
    requires FixedSize(t) && AllPlacedJoints(joints) && NoErrorBefore(t, joints, isolated, |joints|)
    ensures forall e :: !FirstError(t, joints, isolated, e)
  {
    hide JointError;
  }

  lemma GoodIs(w: World, before: u16, l: Layout, isolated: set<nat>, carried: bool)
    requires Sound(w) && ValidLayout(l) && HasNewer(w, before) && !w.resetSeen && !RobotDown(Newest(w))
    requires AllPlacedJoints(l.joints) && NoErrorBefore(Newest(w), l.joints, isolated, |l.joints|)
    requires !NonePresent(Newest(w), l.joints, |l.joints|)
    ensures AnswerIs(if carried then NoError else ManifestMismatch, Written, w, before, l, isolated, carried)
  {
    hide ValidLayout, RobotDown, Up, View, FirstError, NoErrorBefore, NonePresent, Carriable;
    ReportsCarriable(w, w.delivered - 1);
    DownIsNotUp(w.tele[w.delivered - 1]);
    NoFirstError(Newest(w), l.joints, isolated);
  }

  method RunFrame(
    l: Layout, index: seq<nat>, cs: seq<JointCommand>, isolated: set<nat>, monitorOnly: bool,
    cycleId: u16, cmdSeq: u16)
    returns (cmd: Command, representable: bool, ghost want: seq<CmdMotor>)
    requires ValidLayout(l) && Indexed(l, index) && |cs| == |l.joints|
    ensures |want| == |l.joints| && WantsRun(want, l.joints, cs, isolated, monitorOnly)
    ensures Filled(cmd, l, index, want)
    ensures cmd.cycleId == cycleId && cmd.cmdSeq == cmdSeq
    ensures representable == CanCarry(l, cs, isolated, monitorOnly)
  {
    hide ValidLayout, Indexed, Filled, RunSlot, Placed, RepresentableAt;
    LayoutPlaced(l);
    cmd := BlankCommand(l, cycleId, cmdSeq);
    BlankIsFilled(cmd, l, index);
    want, representable := [], true;
    for j := 0 to |l.joints|
      invariant cmd.cycleId == cycleId && cmd.cmdSeq == cmdSeq && |want| == j
      invariant WantsRun(want, l.joints, cs, isolated, monitorOnly)
      invariant Filled(cmd, l, index, want)
      invariant representable <==> monitorOnly || forall i :: 0 <= i < j && i !in isolated ==>
        RepresentableAt(l.joints[i], cs[i])
    {
      var w := l.joints[j];
      var slot := RunSlot(w, cs[j], j in isolated, monitorOnly);
      FillNext(cmd, l, index, want, slot);
      cmd := SetSlot(cmd, index[w.chain], w.motor, slot);
      want := want + [slot];
      if !monitorOnly && j !in isolated && !RepresentableAt(w, cs[j]) {
        representable := false;
      }
    }
  }

  lemma ForgetReset(w: World, joints: seq<Wiring>)
    requires Sound(w)
    ensures var v := w.(resetSeen := false);
      && Sound(v) && Extends(v, w)
      && SettledJoints(v, w.delivered, joints) == SettledJoints(w, w.delivered, joints)
  {
    hide QuietAt, Box, ArmedIn, Grows, Carriable;
    var v := w.(resetSeen := false);
    GrowsChain(w.master.chains, w.master.chains, w.master.chains);
    assert Mail(v) == Mail(w);
    assert forall j :: 0 <= j < |joints| ==>
      SettledJoint(v, w.delivered, joints[j]) == SettledJoint(w, w.delivered, joints[j]);
  }

  lemma DeliveredLater(w: World, v: World, joints: seq<Wiring>, hold: seq<i16>)
    requires Evolves(w, v, Harmless, joints, hold)
    ensures w.delivered <= v.delivered
  {
  }

  /** A delivered report since `from` showed every joint DISABLED. */
  ghost predicate ShowedOff(w: World, from: nat, l: Layout)
    requires Sound(w) && ValidLayout(l)
  {
    exists at :: from <= at < w.delivered && AllOff(w, at, l)
  }

  ghost predicate AllOff(w: World, at: nat, l: Layout)
    requires Sound(w) && ValidLayout(l) && at < |w.tele|
  {
    LayoutPlaced(l);
    forall j :: 0 <= j < |l.joints| ==> Reports(MotorOf(Report(w, at), l.joints[j]), Disabled)
  }

  lemma ShowedOffEarlier(w: World, from: nat, later: nat, l: Layout)
    requires Sound(w) && ValidLayout(l) && from <= later
    ensures ShowedOff(w, later, l) ==> ShowedOff(w, from, l)
  {
    hide AllOff, Sound, ValidLayout;
  }

  /** One of the reports looked at since showed every joint DISABLED. */
  ghost predicate CheckedOff(w: World, checks: seq<nat>, from: nat, l: Layout)
    requires Sound(w) && ValidLayout(l)
  {
    exists i :: from <= i < |checks| && checks[i] < |w.tele| && AllOff(w, checks[i], l)
  }

  /** The joint is the first that the last of them does not show DISABLED, or with none the first. */
  ghost predicate NamesStuck(w: World, checks: seq<nat>, from: nat, l: Layout, j: nat)
    requires Sound(w) && ValidLayout(l)
  {
    if |checks| <= from then j == 0
    else checks[|checks| - 1] < |w.tele| && j < |l.joints| && FirstStuck(w, checks[|checks| - 1], l, j)
  }

  ghost predicate FirstStuck(w: World, at: nat, l: Layout, j: nat)
    requires Sound(w) && ValidLayout(l) && at < |w.tele| && j < |l.joints|
  {
    LayoutPlaced(l);
    && !Reports(MotorOf(Report(w, at), l.joints[j]), Disabled)
    && forall i :: 0 <= i < j ==> Reports(MotorOf(Report(w, at), l.joints[i]), Disabled)
  }

  lemma CheckedJoin(w: World, checks: seq<nat>, longer: seq<nat>, from: nat, l: Layout)
    requires Sound(w) && ValidLayout(l) && checks <= longer && from <= |checks|
    ensures CheckedOff(w, longer, from, l) <==>
      CheckedOff(w, checks, from, l) || CheckedOff(w, longer, |checks|, l)
  {
    hide ValidLayout, Sound, AllOff;
    assert forall i :: 0 <= i < |checks| ==> longer[i] == checks[i];
  }

  lemma FailedLater(w: World, v: World)
    requires Extends(v, w)
    ensures w.failed ==> v.failed
  {
  }

  /** STOP frames alone, and then DISABLE frames alone. */
  ghost predicate StoppedLog(
    before: seq<Command>, after: seq<Command>, l: Layout, index: seq<nat>, hold: seq<i16>)
    requires ValidLayout(l) && Indexed(l, index)
  {
    exists middle :: StoppedAt(before, middle, after, l, index, hold)
  }

  ghost predicate StoppedAt(
    before: seq<Command>, middle: seq<Command>, after: seq<Command>, l: Layout, index: seq<nat>,
    hold: seq<i16>)
    requires ValidLayout(l) && Indexed(l, index)
  {
    LogGrew(before, middle, l, index, ToStop, hold) && LogGrew(middle, after, l, index, ToRelease, hold)
  }

  lemma NothingChecked(w: World, checks: seq<nat>, l: Layout)
    requires Sound(w) && ValidLayout(l)
    ensures !CheckedOff(w, checks, |checks|, l) && NamesStuck(w, checks, |checks|, l, 0)
  {
  }

  lemma CheckedLater(w: World, v: World, checks: seq<nat>, from: nat, l: Layout, j: nat)
    requires Sound(w) && Sound(v) && Extends(v, w) && ValidLayout(l) && LooksIn(checks, w)
    ensures CheckedOff(v, checks, from, l) <==> CheckedOff(w, checks, from, l)
    ensures NamesStuck(v, checks, from, l, j) <==> NamesStuck(w, checks, from, l, j)
  {
    hide ValidLayout, Sound, View, Grows;
    forall i | 0 <= i < |checks|
      ensures AllOff(v, checks[i], l) <==> AllOff(w, checks[i], l)
      ensures j < |l.joints| ==> (FirstStuck(v, checks[i], l, j) <==> FirstStuck(w, checks[i], l, j))
    {
      ShowedLater(w, v, checks[i], l, Disabled, 0);
    }
  }

  lemma OneMoreCheck(w: World, checks: seq<nat>, at: nat, from: nat, l: Layout)
    requires Sound(w) && ValidLayout(l) && from <= |checks| && at < |w.tele|
    ensures CheckedOff(w, checks + [at], from, l) <==> CheckedOff(w, checks, from, l) || AllOff(w, at, l)
  {
    hide ValidLayout, Sound, AllOff;
    var longer := checks + [at];
    assert longer[|checks|] == at;
    assert forall i :: 0 <= i < |checks| ==> longer[i] == checks[i];
  }

  lemma OffIs(w: World, at: nat, l: Layout)
    requires Sound(w) && ValidLayout(l) && at < |w.tele|
    ensures AllPlacedJoints(l.joints)
    ensures AllOff(w, at, l) <==>
      forall j :: 0 <= j < |l.joints| ==> Reports(MotorOf(Report(w, at), l.joints[j]), Disabled)
  {
    hide ValidLayout, Sound, View, MotorOf;
    LayoutPlaced(l);
  }

  lemma OffIsShowed(w: World, from: nat, at: nat, l: Layout)
    requires Sound(w) && ValidLayout(l) && from <= at < w.delivered && at < |w.tele| && AllOff(w, at, l)
    ensures ShowedOff(w, from, l)
  {
    hide ValidLayout, AllOff;
  }

  lemma StuckAt(w: World, checks: seq<nat>, from: nat, l: Layout, j: nat)
    requires Sound(w) && ValidLayout(l) && from < |checks| && checks[|checks| - 1] < |w.tele| && j < |l.joints|
    requires AllPlacedJoints(l.joints)
    requires !Reports(MotorOf(Report(w, checks[|checks| - 1]), l.joints[j]), Disabled)
    requires forall i :: 0 <= i < j ==> Reports(MotorOf(Report(w, checks[|checks| - 1]), l.joints[i]), Disabled)
    ensures NamesStuck(w, checks, from, l, j)
  {
    hide ValidLayout, Sound, View, MotorOf;
  }

  method FirstNotOff(t: RobotTelemetry, joints: seq<Wiring>) returns (r: Option<nat>)
    requires FixedSize(t) && AllPlacedJoints(joints)
    ensures r.None? ==> forall j :: 0 <= j < |joints| ==> Reports(MotorOf(t, joints[j]), Disabled)
    ensures r.Some? ==>
      && r.value < |joints| && !Reports(MotorOf(t, joints[r.value]), Disabled)
      && forall j :: 0 <= j < r.value ==> Reports(MotorOf(t, joints[j]), Disabled)
  {
    hide MotorOf;
    for j := 0 to |joints|
      invariant forall i :: 0 <= i < j ==> Reports(MotorOf(t, joints[i]), Disabled)
    {
      var motor := FindMotor(t, joints[j].chain, joints[j].motor);
      MotorIs(t, joints[j]);
      if !Reports(motor, Disabled) {
        return Some(j);
      }
    }
    return None;
  }

  /** First clearing requests alone, then hold requests at the targets alone. */
  ghost predicate ArmingLog(
    before: seq<Command>, after: seq<Command>, l: Layout, index: seq<nat>, hold: seq<i16>)
    requires ValidLayout(l) && Indexed(l, index)
  {
    exists middle :: LogClears(before, middle, l, index) && LogGrew(middle, after, l, index, ToArm, hold)
  }

  ghost predicate LogClears(before: seq<Command>, after: seq<Command>, l: Layout, index: seq<nat>)
    requires ValidLayout(l) && Indexed(l, index)
  {
    exists hold :: LogGrew(before, after, l, index, ToClear, hold)
  }

  lemma ArmingLogClears(
    before: seq<Command>, middle: seq<Command>, l: Layout, index: seq<nat>, hold0: seq<i16>,
    hold: seq<i16>)
    requires ValidLayout(l) && Indexed(l, index) && LogGrew(before, middle, l, index, ToClear, hold0)
    requires |hold| == |l.joints|
    ensures ArmingLog(before, middle, l, index, hold)
  {
    hide ValidLayout, Indexed;
    LogStarts(middle, l, index, ToArm, hold);
    assert LogClears(before, middle, l, index);
  }

  lemma ArmingLogArms(
    before: seq<Command>, middle: seq<Command>, after: seq<Command>, l: Layout, index: seq<nat>,
    hold: seq<i16>)
    requires ValidLayout(l) && Indexed(l, index)
    requires ArmingLog(before, middle, l, index, hold) && LogGrew(middle, after, l, index, ToArm, hold)
    ensures ArmingLog(before, after, l, index, hold)
  {
    hide ValidLayout, Indexed, Filled;
    var m :| LogClears(before, m, l, index) && LogGrew(m, middle, l, index, ToArm, hold);
    assert LogGrew(m, after, l, index, ToArm, hold);
  }

  /** And then DISABLE frames alone. */
  ghost predicate ReleasedLog(
    before: seq<Command>, after: seq<Command>, l: Layout, index: seq<nat>, hold: seq<i16>)
    requires ValidLayout(l) && Indexed(l, index)
  {
    exists middle ::
      ArmingLog(before, middle, l, index, hold) && LogGrew(middle, after, l, index, ToRelease, hold)
  }

  lemma ReleasedLogIs(
    before: seq<Command>, middle: seq<Command>, after: seq<Command>, l: Layout, index: seq<nat>,
    hold: seq<i16>)
    requires ValidLayout(l) && Indexed(l, index)
    requires ArmingLog(before, middle, l, index, hold) && LogGrew(middle, after, l, index, ToRelease, hold)
    ensures ReleasedLog(before, after, l, index, hold)
  {
    hide ValidLayout, Indexed, ArmingLog, LogGrew;
  }

  lemma ReleasedLater(w0: World, w1: World, w2: World, l: Layout, hold: seq<i16>)
    requires Extends(w1, w0) && Evolves(w1, w2, Harmless, l.joints, hold) && ValidLayout(l)
    ensures Extends(w2, w0)
    ensures ShowedOff(w2, w1.delivered, l) ==> ShowedOff(w2, w0.delivered, l)
  {
    hide ShowedOff, Sound, Grows, ValidLayout;
    ExtendsChain(w0, w1, w2);
    ShowedOffEarlier(w2, w0.delivered, w1.delivered, l);
  }

  /** What a failed activation leaves, having begun with every joint settled: if nothing was captured,
      they are still settled; otherwise the joints are asked for together, and it is unfinished. */
  ghost predicate LeftBehind(w: World, from: nat, l: Layout, slots: seq<Slot>) {
    if slots == [] then SettledJoints(w, from, l.joints)
    else Unfinished(w, from, l, slots) && AllTogether(w, l.joints)
  }

  lemma LeftBehindKept(
    w: World, v: World, from: nat, l: Layout, hold: seq<i16>, slots: seq<Slot>)
    requires Evolves(w, v, Harmless, l.joints, hold)
    ensures LeftBehind(w, from, l, slots) ==> LeftBehind(v, from, l, slots)
  {
    hide Sound, Settled, ReadyingJoint, TogetherJoints, Grows, TakenAll, KeepsUnarmed, KeepsFaults, KeepsAim,
      KeepsLaunched;
    if slots == [] {
      SettledKept(w, v, from, l.joints);
    } else if LeftBehind(w, from, l, slots) {
      SoundDelivered(v);
      var at :| from <= at < w.delivered <= |w.tele| && UnfinishedAt(w, at, l, slots);
      assert v.tele[at] == w.tele[at];
      assert UnfinishedAt(v, at, l, slots);
    }
  }

  /** Arming cut short. */
  lemma ArmingLeaves(
    from: nat, w2: World, w3: World, l: Layout, hold: seq<i16>, maxAgeUs: nat, slots: seq<Slot>)
    requires Evolves(w2, w3, Arming, l.joints, hold) && ValidLayout(l)
    requires Poised(w2, from, l, hold, maxAgeUs, slots) && AllTogether(w2, l.joints)
    ensures LeftBehind(w3, from, l, slots)
  {
    hide Sound, AimedJoints, StoodAt, ValidLayout, Readying, TogetherJoints, Grows, TakenAll, KeepsFaults,
      KeepsAim, SettledJoints;
    LayoutPlaced(l);
    SoundDelivered(w3);
    var at :| from <= at < w2.delivered <= |w2.tele| && PoisedAt(w2, at, l, hold, maxAgeUs, slots);
    TakenCount(w2.tele[at], l.joints, slots);
    forall j | 0 <= j < |l.joints|
      ensures ReadyingJoint(w3, at, slots[j], j, l.joints, false)
    {
      assert ReadyingJoint(w2, at, slots[j], j, l.joints, true);
      ReadyingCloses(w3, at, slots[j]);
    }
    assert w3.tele[at] == w2.tele[at];
    assert UnfinishedAt(w3, at, l, slots);
  }

  lemma AfterClearing(w0: World, w1: World, joints: seq<Wiring>, hold: seq<i16>)
    requires Evolves(w0, w1, Resetting, joints, hold)
    ensures Extends(w1, w0)
    ensures SettledJoints(w0, w0.delivered, joints) ==> SettledJoints(w1, w0.delivered, joints)
  {
    hide Settled, Sound, Grows;
    SettledKept(w0, w1, w0.delivered, joints);
  }

  lemma SettledKept(w: World, v: World, from: nat, joints: seq<Wiring>)
    requires KeepsSettled(w, v)
    ensures SettledJoints(w, from, joints) ==> SettledJoints(v, from, joints)
  {
    hide Settled;
    if SettledJoints(w, from, joints) {
      forall j | 0 <= j < |joints|
        ensures SettledJoint(v, from, joints[j])
      {
        assert SettledJoint(w, from, joints[j]);
      }
    }
  }

  lemma AfterCapture(
    w0: World, w1: World, w2: World, l: Layout, hold0: seq<i16>, hold: seq<i16>, maxAgeUs: nat)
    returns (slots: seq<Slot>)
    requires Extends(w1, w0) && Evolves(w1, w2, Harmless, l.joints, hold0) && ValidLayout(l)
    ensures Extends(w2, w0)
    ensures SettledJoints(w1, w0.delivered, l.joints) ==> SettledJoints(w2, w0.delivered, l.joints)
    ensures SettledJoints(w1, w0.delivered, l.joints) && Captured(w2, w1.delivered, l, hold, maxAgeUs) ==>
      Poised(w2, w0.delivered, l, hold, maxAgeUs, slots) && AllTogether(w2, l.joints)
  {
    hide Settled, Sound, AimedJoints, StoodAt, SettledJoints, ValidLayout, TogetherJoints, ReadyingJoint, Grows,
      TakenAll;
    ExtendsChain(w0, w1, w2);
    slots := [];
    SettledKept(w1, w2, w0.delivered, l.joints);
    if SettledJoints(w1, w0.delivered, l.joints) && Captured(w2, w1.delivered, l, hold, maxAgeUs) {
      var at :| w1.delivered <= at < w2.delivered <= |w2.tele| &&
        StoodAt(w2.tele[at], l.joints, hold, maxAgeUs);
      LayoutPlaced(l);
      slots := TakeAll(w2.tele[at], l.joints, hold, maxAgeUs);
      SettledAreReadying(w2, w0.delivered, at, l.joints, hold, maxAgeUs, slots);
      SettledAreTogether(w2, w0.delivered, l.joints);
      TakenCount(w2.tele[at], l.joints, slots);
      assert PoisedAt(w2, at, l, hold, maxAgeUs, slots);
    }
  }

  lemma AfterArming(
    w0: World, w2: World, w3: World, l: Layout, hold: seq<i16>, maxAgeUs: nat, ok: bool, slots: seq<Slot>)
    requires Extends(w2, w0) && Evolves(w2, w3, Arming, l.joints, hold) && ValidLayout(l)
    requires ok ==> Showed(w3, w2.delivered, l, Enabled, maxAgeUs)
    ensures Extends(w3, w0)
    ensures ok ==> Showed(w3, w0.delivered, l, Enabled, maxAgeUs)
    ensures Poised(w2, w0.delivered, l, hold, maxAgeUs, slots) && AllTogether(w2, l.joints) ==>
      LeftBehind(w3, w0.delivered, l, slots)
    ensures ok && Poised(w2, w0.delivered, l, hold, maxAgeUs, slots) && AllTogether(w2, l.joints) ==>
      && AllNoReset(w3) && AllTogether(w3, l.joints)
      && Holding(w3, w0.delivered, l, hold, maxAgeUs, slots, Unisolated(|l.joints|, {}))
  {
    hide Sound, AllNoReset, ValidLayout, AllShow, KeepsReadying, KeepsFaults, KeepsAim, Poised, Holding, Grows,
      TogetherJoints, Showed, LeftBehind;
    ExtendsChain(w0, w2, w3);
    if Poised(w2, w0.delivered, l, hold, maxAgeUs, slots) && AllTogether(w2, l.joints) {
      ArmingLeaves(w0.delivered, w2, w3, l, hold, maxAgeUs, slots);
    }
    if ok {
      ShowedEarlier(w3, w0.delivered, w2.delivered, l, Enabled, maxAgeUs);
      if Poised(w2, w0.delivered, l, hold, maxAgeUs, slots) {
        PoisedArms(w0.delivered, w2, w3, l, hold, maxAgeUs, slots);
      }
    }
  }

  lemma ShowedEarlier(w: World, from: nat, later: nat, l: Layout, state: DriveState, maxAgeUs: nat)
    requires Sound(w) && ValidLayout(l) && from <= later
    ensures Showed(w, later, l, state, maxAgeUs) ==> Showed(w, from, l, state, maxAgeUs)
  {
    hide AllShow, Sound, ValidLayout;
  }

  /** Poised to arm, and then reported armed: no RESET is left, the targets were held, and every
      joint was launched. */
  lemma PoisedArms(
    from: nat, w2: World, w3: World, l: Layout, hold: seq<i16>, maxAgeUs: nat, slots: seq<Slot>)
    requires Evolves(w2, w3, Arming, l.joints, hold) && ValidLayout(l)
    requires Poised(w2, from, l, hold, maxAgeUs, slots) && Showed(w3, w2.delivered, l, Enabled, maxAgeUs)
    ensures AllNoReset(w3)
    ensures Holding(w3, from, l, hold, maxAgeUs, slots, Unisolated(|l.joints|, {}))
  {
    hide Sound, AimedJoints, StoodAt, AllNoReset, ValidLayout, AllShow, ReadyingJoint, LaunchedJoint, Grows,
      KeepsTogether, KeepsFaults, TakenAll;
    LayoutPlaced(l);
    SoundDelivered(w3);
    var at :| from <= at < w2.delivered <= |w2.tele| && PoisedAt(w2, at, l, hold, maxAgeUs, slots);
    var shown :| w2.delivered <= shown < w3.delivered && AllShow(w3, shown, l, Enabled, maxAgeUs);
    TakenCount(w2.tele[at], l.joints, slots);
    forall j | 0 <= j < |l.joints|
      ensures LaunchedJoint(w3, shown, slots[j], j, l.joints, Unisolated(|l.joints|, {})) && AllNoReset(w3)
    {
      assert ReadyingJoint(w3, at, slots[j], j, l.joints, true);
      ShownAt(w3, shown, l, Enabled, maxAgeUs, j);
      ReportedEnabledIsLaunched(w3, at, shown, l.joints, slots[j], j, Unisolated(|l.joints|, {}));
    }
    assert LaunchedJoint(w3, shown, slots[0], 0, l.joints, Unisolated(|l.joints|, {}));
    assert w3.tele[at] == w2.tele[at];
    assert HoldingSince(w3, at, shown, l, hold, maxAgeUs, slots, Unisolated(|l.joints|, {}));
  }

  lemma TakenCount(s: State, joints: seq<Wiring>, slots: seq<Slot>)
    requires TakenAll(s, joints, slots)
    ensures |slots| == |joints|
  {
  }

  lemma ShownAt(w: World, at: nat, l: Layout, state: DriveState, maxAgeUs: nat, j: nat)
    requires Sound(w) && ValidLayout(l) && at < |w.tele| && AllShow(w, at, l, state, maxAgeUs)
    requires j < |l.joints|
    ensures AllPlacedJoints(l.joints) && Reports(MotorOf(Report(w, at), l.joints[j]), state)
  {
    hide ValidLayout, View, MotorOf, Sound;
    LayoutPlaced(l);
    assert ReportsFresh(MotorOf(Report(w, at), l.joints[j]), state, maxAgeUs);
  }

  lemma ShowedPersists(
    w: World, v: World, t: Traffic, joints: seq<Wiring>, hold: seq<i16>, from: nat, l: Layout,
    state: DriveState, maxAgeUs: nat)
    requires Evolves(w, v, t, joints, hold) && ValidLayout(l)
    ensures Showed(w, from, l, state, maxAgeUs) ==> Showed(v, from, l, state, maxAgeUs)
  {
    hide Sound, ValidLayout, AllReport, View;
    if Showed(w, from, l, state, maxAgeUs) {
      SoundDelivered(w);
      var at :| from <= at < w.delivered && AllShow(w, at, l, state, maxAgeUs);
      ShowedLater(w, v, at, l, state, maxAgeUs);
      assert AllShow(v, at, l, state, maxAgeUs);
    }
  }

  method AllJoints(n: nat) returns (all: set<nat>)
    ensures forall j: nat :: j in all <==> j < n
  {
    all := {};
    for j := 0 to n
      invariant forall i: nat :: i in all <==> i < j
    {
      all := all + {j};
    }
  }

  method CaptureFrom(t: RobotTelemetry, joints: seq<Wiring>, maxAgeUs: nat)
    returns (captured: Option<seq<i16>>)
    requires FixedSize(t) && AllPlacedJoints(joints)
    ensures captured.Some? <==> AllReport(t, joints, Disabled, maxAgeUs)
    ensures captured.Some? ==> HoldsFrom(t, joints, captured.value, maxAgeUs)
  {
    hide MotorOf;
    var hold: seq<i16> := [];
    for j := 0 to |joints|
      invariant |hold| == j
      invariant forall i :: 0 <= i < j ==>
        ReportsFresh(MotorOf(t, joints[i]), Disabled, maxAgeUs) && hold[i] == MotorOf(t, joints[i]).value.pos
    {
      var motor := FindMotor(t, joints[j].chain, joints[j].motor);
      MotorIs(t, joints[j]);
      if !ReportsFresh(motor, Disabled, maxAgeUs) {
        return None;
      }
      hold := hold + [motor.value.pos];
    }
    return Some(hold);
  }

  lemma LogStarts(log: seq<Command>, l: Layout, index: seq<nat>, phase: Phase, hold: seq<i16>)
    requires ValidLayout(l) && Indexed(l, index) && |hold| == |l.joints|
    ensures LogGrew(log, log, l, index, phase, hold)
  {
  }

  lemma SoundDelivered(w: World)
    requires Sound(w)
    ensures w.delivered <= |w.tele|
  {
  }

  lemma SentSound(w: World, cmd: Command)
    requires Sound(w)
    ensures Sound(Sent(w, cmd))
  {
  }

  /** A link that fails is a move of the world like any other. */
  lemma FailureIsMove(w: World, cfg: Config, t: Traffic, joints: seq<Wiring>, hold: seq<i16>)
    requires Sound(w)
    ensures Evolves(w, w.(failed := true), t, joints, hold) && Sound(w.(failed := true))
  {
    hide Evolves, Grows, Carriable;
    assert After(w, [LinkFails], cfg) == Apply(w, LinkFails, cfg);
    TimePasses(w, [LinkFails], cfg, t, joints, hold);
  }
}
