/** Results that span the cores: reports over the wire, silence and the wiring, the gate and the
    encoder. */
module EndToEnd {
  import opened Wrappers
  import opened Framing
  import opened Stream
  import opened Telemetry
  import opened Numbers
  import opened FixedPoint
  import opened BatchTypes
  import opened JointWiring
  import opened JointPolicy
  import opened DriveSm
  import opened Master
  import opened DeadMan
  import opened Latching
  import opened Requests
  import opened Channel
  import opened Rearming
  import opened MasterReports
  import opened CommandFrames
  import opened Traffics
  import opened Stm32Transports
  import opened ArmingRuns
  import opened SafetyKernels
  import opened ActuatorSystems

  /** The message carries the report of the state. */
  predicate Carries(m: Message, s: State) {
    Carriable(s.chains) && m.code == RobotTele.Code() && m.payload == Serialise(View(s))
  }

  ghost predicate AllCarry(ms: seq<Message>, states: seq<State>) {
    |ms| == |states| && forall i :: 0 <= i < |ms| ==> Carries(ms[i], states[i])
  }

  /** The event is one good telemetry frame, and its payload parses to the view of the state. */
  ghost predicate ReadsBack(e: Stream.Event, s: State) {
    && e.Good? && e.frame.kind == RobotTele && Carriable(s.chains)
    && Acceptable(e.frame.payload) && Parsed(e.frame.payload) == View(s)
  }

  lemma CarriedIsSendable(m: Message, s: State)
    requires Carries(m, s)
    ensures Sendable(m)
    ensures ReadsBack(Stream.Event.Good(FrameOf(m), m.Bytes()), s)
  {
    hide Serialise, View, Parsed, Acceptable;
    ReportFits(s);
    ViewSurvivesWire(s);
  }

  lemma AllSendable(ms: seq<Message>, states: seq<State>)
    requires AllCarry(ms, states)
    ensures forall m :: m in ms ==> Sendable(m)
  {
    hide Carries, Sendable;
    forall i | 0 <= i < |ms|
      ensures Sendable(ms[i])
    {
      CarriedIsSendable(ms[i], states[i]);
    }
  }

  /** However many reports a master sends back to back, the host reads back exactly those views of
      its states, in order, and nothing is left over. */
  lemma ReportsArrive(ms: seq<Message>, states: seq<State>) returns (events: seq<Stream.Event>)
    requires AllCarry(ms, states)
    ensures |events| == |states| && forall i :: 0 <= i < |events| ==> ReadsBack(events[i], states[i])
    ensures forall m :: m in ms ==> Sendable(m)
    ensures Parse(WireOf(ms)) == (events, [])
  {
    hide Carries, ReadsBack, Sendable, Parse, FrameOf, WireOf;
    AllSendable(ms, states);
    ParseInvertsBuild(ms);
    events := EventsOf(ms);
    forall i | 0 <= i < |events|
      ensures ReadsBack(events[i], states[i])
    {
      CarriedIsSendable(ms[i], states[i]);
    }
  }

  lemma ReportFits(s: State)
    requires Carriable(s.chains)
    ensures |Serialise(View(s))| <= MAX_PAYLOAD
  {
    hide EncodeHead, EncodeChains, RobotState, ViewChain;
  }

  /** The dead-man, in terms of the wiring: when the host that sent a full frame falls silent while
      anything is armed, every wired joint's motor on a chain that passes the version gate is off
      within the ramp's length of the trip, and stays off until a RESET. */
  lemma SilenceStopsEveryJoint(
    s: State, silence: seq<Master.Event>, after: seq<Master.Event>, cfg: Config, l: Layout, index: seq<nat>,
    want: seq<CmdMotor>, j: nat, c: nat)
    requires Sane(cfg) && s.pending.None? && Silent(silence) && ResetFree(after)
    requires ValidLayout(l) && Indexed(l, index) && |want| == |l.joints| && j < |want|
    requires s.active.Some? && Filled(s.active.value, l, index, want)
    requires Exists(s, c, l.joints[j].motor) && s.chains[c].id == l.joints[j].chain
    requires cfg.timing.hostLostCycles <= s.cyclesSinceFresh + Cycles(silence) + 1 < U32
    requires var last := Evolve(s, silence, cfg);
      AnyArmed(last.chains) && c < |last.chains| && !last.chains[c].mismatch
    requires cfg.CycleMs() * Cycles(after) >= cfg.timing.stopRampMs && Cycles(after) > 0
    ensures var trip := Happen(Evolve(s, silence, cfg), CycleWith([]), cfg);
      && trip.hostLost
      && var t := Evolve(trip, after, cfg);
        t.hostLost && Exists(t, c, l.joints[j].motor) &&
        !IsArmed(MotorAt(t, c, l.joints[j].motor).driveState)
  {
    hide Evolve, Happen, AnyArmed, ValidLayout, Indexed, Filled, CoveredIn, Silent, ResetFree, Cycles;
    SilenceCounts(s, silence, cfg);
    var last := Evolve(s, silence, cfg);
    ExistsInSameShape(s, last, c, l.joints[j].motor);
    FilledCovers(last.active.value, l, index, want, last, j, c);
    DeadManStops(s, silence, after, cfg, c, l.joints[j].motor);
  }

  // ---- What a frame of the host's does to the robot ----

  /** The cycle takes the frame, and the host is heard in it. */
  predicate HeardWith(s: State, arrivals: seq<Command>, cfg: Config, cmd: Command) {
    Taken(s, arrivals) == Some(cmd) && !Cycle(s, arrivals, cfg).hostLost
  }

  lemma TakenIsActive(s: State, arrivals: seq<Command>, cfg: Config, cmd: Command)
    requires HeardWith(s, arrivals, cfg, cmd)
    ensures var s1 := Swap(ReadHost(s, arrivals), cfg);
      s1.active == Some(cmd) && s1.cmdSeqActive == cmd.cmdSeq && !s1.hostLost && s1.chains == s.chains
  {
    hide ApplyChains, PollMotor, AnyArmed, CarriesReset;
  }

  /** In a cycle that takes a full frame, joint j's motor is covered, and asked just what is wanted. */
  lemma FrameReaches(
    s: State, arrivals: seq<Command>, cfg: Config, cmd: Command, l: Layout, index: seq<nat>,
    want: seq<CmdMotor>, j: nat, c: nat, R: CmdMotor -> bool)
    requires ValidLayout(l) && Indexed(l, index) && |want| == |l.joints| && Filled(cmd, l, index, want)
    requires HeardWith(s, arrivals, cfg, cmd) && j < |want| && R(want[j])
    requires Exists(s, c, l.joints[j].motor) && s.chains[c].id == l.joints[j].chain && !s.chains[c].mismatch
    ensures var s1 := Swap(ReadHost(s, arrivals), cfg);
      && s1.active == Some(cmd) && s1.cmdSeqActive == cmd.cmdSeq && !s1.hostLost
      && CoveredIn(s1, c, l.joints[j].motor) && Asked(R, s1, c, l.joints[j].motor)
  {
    hide ValidLayout, Indexed, Filled, HeardWith, Swap, ReadHost, Asked, CoveredIn;
    TakenIsActive(s, arrivals, cfg, cmd);
    var s1 := Swap(ReadHost(s, arrivals), cfg);
    FilledCovers(cmd, l, index, want, s1, j, c);
    FilledAsks(cmd, l, index, want, s1, j, c, R);
  }

  /** Acted on with the host heard, a frame that asks a bare DISABLE of a joint leaves its motor, on a
      matching chain, unarmed. */
  lemma BareDisableDisarms(
    s: State, arrivals: seq<Command>, cfg: Config, cmd: Command, l: Layout, index: seq<nat>,
    want: seq<CmdMotor>, j: nat, c: nat)
    requires ValidLayout(l) && Indexed(l, index) && |want| == |l.joints| && Filled(cmd, l, index, want)
    requires HeardWith(s, arrivals, cfg, cmd) && j < |want| && want[j] == PhaseSlot(ToRelease, 0)
    requires Exists(s, c, l.joints[j].motor) && s.chains[c].id == l.joints[j].chain && !s.chains[c].mismatch
    ensures var t := Cycle(s, arrivals, cfg);
      Exists(t, c, l.joints[j].motor) && Off(MotorAt(t, c, l.joints[j].motor))
  {
    hide Cycle, ValidLayout, Indexed, Filled, HeardWith, CoveredIn, Asked;
    FrameReaches(s, arrivals, cfg, cmd, l, index, want, j, c, (r: CmdMotor) => r.driveReq.Disable?);
    DisableCycleDisarms(s, arrivals, cfg, c, l.joints[j].motor);
  }

  /** So one release frame disarms every wired motor. */
  lemma ReleaseFrameDisarms(
    s: State, arrivals: seq<Command>, cfg: Config, cmd: Command, l: Layout, index: seq<nat>,
    hold: seq<i16>, j: nat, c: nat)
    requires ValidLayout(l) && Indexed(l, index) && |hold| == |l.joints| && j < |hold|
    requires Filled(cmd, l, index, PhaseWant(ToRelease, hold)) && HeardWith(s, arrivals, cfg, cmd)
    requires Exists(s, c, l.joints[j].motor) && s.chains[c].id == l.joints[j].chain && !s.chains[c].mismatch
    ensures var t := Cycle(s, arrivals, cfg);
      Exists(t, c, l.joints[j].motor) && Off(MotorAt(t, c, l.joints[j].motor))
  {
    hide Cycle, ValidLayout, Indexed, Filled, HeardWith, Off;
    BareDisableDisarms(s, arrivals, cfg, cmd, l, index, PhaseWant(ToRelease, hold), j, c);
  }

  /** And one running frame the motors of the joints that are isolated; in a read-only session, all. */
  lemma IsolationDisarms(
    s: State, arrivals: seq<Command>, cfg: Config, cmd: Command, l: Layout, index: seq<nat>,
    want: seq<CmdMotor>, cs: seq<JointCommand>, isolated: set<nat>, monitorOnly: bool, j: nat, c: nat)
    requires ValidLayout(l) && Indexed(l, index) && |want| == |l.joints| && Filled(cmd, l, index, want)
    requires WantsRun(want, l.joints, cs, isolated, monitorOnly) && HeardWith(s, arrivals, cfg, cmd)
    requires j < |want| && (j in isolated || monitorOnly)
    requires Exists(s, c, l.joints[j].motor) && s.chains[c].id == l.joints[j].chain && !s.chains[c].mismatch
    ensures var t := Cycle(s, arrivals, cfg);
      Exists(t, c, l.joints[j].motor) && Off(MotorAt(t, c, l.joints[j].motor))
  {
    hide Cycle, ValidLayout, Indexed, Filled, HeardWith, Off, EncodeTuple, ToSetpoint;
    BareDisableDisarms(s, arrivals, cfg, cmd, l, index, want, j, c);
  }

  /** One stop frame leaves every wired motor at most ramping. */
  lemma StopFrameRamps(
    s: State, arrivals: seq<Command>, cfg: Config, cmd: Command, l: Layout, index: seq<nat>,
    hold: seq<i16>, j: nat, c: nat)
    requires ValidLayout(l) && Indexed(l, index) && |hold| == |l.joints|
    requires Filled(cmd, l, index, PhaseWant(ToStop, hold)) && HeardWith(s, arrivals, cfg, cmd) && j < |hold|
    requires Exists(s, c, l.joints[j].motor) && s.chains[c].id == l.joints[j].chain && !s.chains[c].mismatch
    ensures var t := Cycle(s, arrivals, cfg);
      Exists(t, c, l.joints[j].motor) && AtMostRamping(MotorAt(t, c, l.joints[j].motor))
  {
    hide ValidLayout, Indexed, Filled, HeardWith, Cycle, CoveredIn, Asked, Swap, ReadHost;
    FrameReaches(s, arrivals, cfg, cmd, l, index, PhaseWant(ToStop, hold), j, c,
                 (r: CmdMotor) => r.driveReq.Stop?);
    StopCycleRamps(s, arrivals, cfg, c, l.joints[j].motor);
  }

  /** Two clearing frames bring every wired motor that was in FAULT, with a drive that answers and is
      clean, back to DISABLED with its fault forgotten; and the first ends a dead-man trip. */
  lemma ClearFramesRecover(
    s: State, first: Command, second: Command, cfg: Config, l: Layout, index: seq<nat>, hold: seq<i16>,
    j: nat, c: nat)
    requires ValidLayout(l) && Indexed(l, index) && |hold| == |l.joints| && j < |hold|
    requires Filled(first, l, index, PhaseWant(ToClear, hold))
    requires Filled(second, l, index, PhaseWant(ToClear, hold))
    requires 0 < cfg.timing.hostLostCycles && 0 < cfg.CycleMs() && 2 * cfg.CycleMs() < U32
    requires s.cyclesSinceFresh + 1 < U32
    requires Exists(s, c, l.joints[j].motor) && s.chains[c].id == l.joints[j].chain && !s.chains[c].mismatch
    requires Faulted(MotorAt(s, c, l.joints[j].motor))
    ensures !Cycle(s, [first], cfg).hostLost
    ensures var t := Cycle(Cycle(s, [first], cfg), [second], cfg);
      Exists(t, c, l.joints[j].motor) && Recovered(MotorAt(t, c, l.joints[j].motor))
  {
    hide ValidLayout, Indexed, Filled, Cycle, CoveredIn, Asked, Swap, ReadHost, Faulted, Recovered, ClearingFor,
      DeadMan.AsksReset;
    var k := l.joints[j].motor;
    var t := Cycle(s, [first], cfg);
    ClearFrameHeard(s, first, cfg, l, index, hold, j);
    FrameReaches(s, [first], cfg, first, l, index, PhaseWant(ToClear, hold), j, c,
                 (r: CmdMotor) => r.driveReq.Reset?);
    ResetCycleStarts(s, [first], cfg, c, k);
    CycleKeepsLinks(s, [first], cfg, c);
    ClearFrameHeard(t, second, cfg, l, index, hold, j);
    FrameReaches(t, [second], cfg, second, l, index, PhaseWant(ToClear, hold), j, c,
                 (r: CmdMotor) => r.driveReq.Reset?);
    ResetCycleEnds(t, [second], cfg, c, k);
  }

  /** A clearing frame carries RESET, so the cycle that takes it ends with the host heard. */
  lemma ClearFrameHeard(
    s: State, cmd: Command, cfg: Config, l: Layout, index: seq<nat>, hold: seq<i16>, j: nat)
    requires ValidLayout(l) && Indexed(l, index) && |hold| == |l.joints| && j < |hold|
    requires Filled(cmd, l, index, PhaseWant(ToClear, hold))
    requires 0 < cfg.timing.hostLostCycles && s.cyclesSinceFresh + 1 < U32
    ensures HeardWith(s, [cmd], cfg, cmd) && Cycle(s, [cmd], cfg).cyclesSinceFresh == 0
  {
    hide ValidLayout, Indexed, Cycle, Holds, SomeJoint;
    Addressed(l, index, j);
    AtMostFour(l);
    var (i, k) := At(l, index, j);
    assert Holds(cmd, l, index, j, PhaseWant(ToClear, hold)[j]);
    HoldsSlot(cmd, l, index, j, PhaseWant(ToClear, hold)[j]);
    assert cmd.chains[i].motors[k].driveReq.Reset?;
    LostExactly(s, [cmd], cfg);
  }

  lemma HoldsSlot(cmd: Command, l: Layout, index: seq<nat>, j: nat, r: CmdMotor)
    requires ValidLayout(l) && Indexed(l, index) && j < |l.joints| && Holds(cmd, l, index, j, r)
    ensures l.joints[j].chain < MAX_CHAINS && |index| == MAX_CHAINS
    ensures var (i, k) := At(l, index, j);
      i < MAX_CHAINS && k < MAX_MOTORS && cmd.chains[i].motors[k] == r
  {
    hide ValidLayout, Indexed;
    Addressed(l, index, j);
    AtMostFour(l);
  }

  /** The whole way round. A controller's command, in a running frame, taken by a master that hears its
      host, for a joint that is ENABLED with a drive that answers: the report of that very cycle names
      the frame, and the host reads the joint back commandable and within half a unit of the wire of
      what the controller asked. */
  lemma CommandIsSeen(
    s: State, arrivals: seq<Command>, cfg: Config, cmd: Command, l: Layout, index: seq<nat>,
    want: seq<CmdMotor>, cs: seq<JointCommand>, isolated: set<nat>, j: nat, c: nat, maxAgeUs: nat)
    requires ValidLayout(l) && Indexed(l, index) && |want| == |l.joints| && Filled(cmd, l, index, want)
    requires WantsRun(want, l.joints, cs, isolated, false) && j < |want| && j !in isolated
    requires EncodeTuple(ToSetpoint(l.joints[j], cs[j])).representable
    requires HeardWith(s, arrivals, cfg, cmd) && Carriable(s.chains)
    requires Exists(s, c, l.joints[j].motor) && s.chains[c].id == l.joints[j].chain
    requires !s.chains[c].mismatch && !s.chains[c].dropped && Ready(MotorAt(s, c, l.joints[j].motor))
    ensures var t := Cycle(s, arrivals, cfg);
      && Carriable(t.chains) && Placed(l.joints[j]) && cs[j].IsFinite()
      && ReadsAs(View(t), l.joints[j], cs[j], cmd.cmdSeq, maxAgeUs)
  {
    hide ValidLayout, Indexed, Filled, HeardWith, Cycle, CoveredIn, Asked, Swap, ReadHost, EncodeTuple,
      ToSetpoint, View, RunsAt, Carriable, Ready, Found, ReadJoint;
    var w := l.joints[j];
    var e := EncodeTuple(ToSetpoint(w, cs[j]));
    var t := Cycle(s, arrivals, cfg);
    WantsTuple(l, cs, want, isolated, j);
    FrameReaches(s, arrivals, cfg, cmd, l, index, want, j, c,
                 (r: CmdMotor) => BringsTuple(r, e.pos, e.vel, e.tauFf));
    TupleReachesMotor(s, arrivals, cfg, c, w.motor, e.pos, e.vel, e.tauFf);
    CycleKeepsLinks(s, arrivals, cfg, c);
    CycleKeepsCarriable(s, arrivals, cfg);
    RunningIsReported(t, c, w, e.pos, e.vel, e.tauFf, cmd.cmdSeq);
    EncodedFields(w, cs[j]);
    EchoedJointReadsBack(w, cs[j], Found(View(t), w.chain, w.motor).value, maxAgeUs);
    ReadingIs(w, Found(View(t), w.chain, w.motor).value, maxAgeUs);
    CycleSaysActive(s, arrivals, cfg, cmd);
    ReportOfRobot(t);
  }

  /** The report names the command as the one acted on, by the robot and by the motor; and the joint
      reads commandable, and within half a unit of the wire of the command. */
  predicate ReadsAs(t: RobotTelemetry, w: Wiring, c: JointCommand, cmdSeq: u16, maxAgeUs: nat)
    requires FixedSize(t) && Placed(w) && c.IsFinite()
  {
    var m := Found(t, w.chain, w.motor);
    && m.Some? && m.value.lastAppliedSeq == cmdSeq == t.cmdSeqActive
    && var reading := ReadJoint(w, m, maxAgeUs);
    && reading.commandable
    && -0.00005 <= reading.feedback.position - c.position.r <= 0.00005
    && -0.005 <= reading.feedback.velocity - c.velocity.r <= 0.005
    && -0.005 <= reading.feedback.effort - c.effort.r <= 0.005
  }

  lemma WantsTuple(l: Layout, cs: seq<JointCommand>, want: seq<CmdMotor>, isolated: set<nat>, j: nat)
    requires WantsRun(want, l.joints, cs, isolated, false) && j < |want| && j !in isolated
    ensures j < |l.joints| && j < |cs| && Placed(l.joints[j])
    ensures var e := EncodeTuple(ToSetpoint(l.joints[j], cs[j])); BringsTuple(want[j], e.pos, e.vel, e.tauFf)
  {
    hide EncodeTuple, ToSetpoint;
  }

  lemma CycleKeepsCarriable(s: State, arrivals: seq<Command>, cfg: Config)
    requires Carriable(s.chains)
    ensures Carriable(Cycle(s, arrivals, cfg).chains)
  {
    hide Cycle;
    CycleGrows(s, arrivals, cfg);
    CarriableAlike(s.chains, Cycle(s, arrivals, cfg).chains);
  }

  lemma CycleSaysActive(s: State, arrivals: seq<Command>, cfg: Config, cmd: Command)
    requires HeardWith(s, arrivals, cfg, cmd)
    ensures Cycle(s, arrivals, cfg).cmdSeqActive == cmd.cmdSeq
  {
    hide ApplyChains, PollMotor, AnyArmed, CarriesReset;
  }

  lemma RunningIsReported(t: State, c: nat, w: Wiring, pos: i16, vel: i16, tauFf: i16, q: u16)
    requires Carriable(t.chains) && Exists(t, c, w.motor) && t.chains[c].id == w.chain
    requires !t.chains[c].mismatch && !t.chains[c].dropped
    requires RunsAt(MotorAt(t, c, w.motor), pos, vel, tauFf, q)
    ensures w.motor < MAX_MOTORS && Found(View(t), w.chain, w.motor).Some?
    ensures var m := Found(View(t), w.chain, w.motor).value;
      m.pos == pos && m.vel == vel && m.tau == tauFf && m.driveState == 5 && m.lastAppliedSeq == q
  {
    hide View, Found, Carriable;
    ReportOfMotor(t, c, w.motor);
  }

  /** A running frame, as an exchange fills it, arms every joint that is not isolated. */
  lemma RunFrameArms(
    cmd: Command, l: Layout, index: seq<nat>, want: seq<CmdMotor>, cs: seq<JointCommand>,
    isolated: set<nat>, s: State, x: Slot, j: nat)
    requires ValidLayout(l) && Indexed(l, index) && |want| == |l.joints|
    requires Filled(cmd, l, index, want) && WantsRun(want, l.joints, cs, isolated, false)
    requires IsOf(x, l.joints, j) && j !in isolated && There(s, x) && !AnyMismatch(s.chains)
    ensures Arms(cmd, s, x)
  {
    hide ValidLayout, Indexed, Filled, AlwaysAt, QuietAt, EncodeTuple, ToSetpoint;
    assert want[j] == RunSlot(l.joints[j], cs[j], false, false);
    FilledEnables(cmd, l, index, want, j);
    FilledCovers(cmd, l, index, want, s.(active := Some(cmd)), j, x.c);
  }

  /** So a session arms a joint whose slave has started again, the first time it sees it DISABLED. */
  lemma SessionRearmsAfterSlaveReset(
    s: State, first: Command, second: Command, cfg: Config, l: Layout, index: seq<nat>,
    want: seq<CmdMotor>, cs: seq<JointCommand>, want': seq<CmdMotor>, cs': seq<JointCommand>,
    isolated: set<nat>, x: Slot, j: nat)
    requires ValidLayout(l) && Indexed(l, index) && |want| == |l.joints| == |want'|
    requires Filled(first, l, index, want) && WantsRun(want, l.joints, cs, isolated, false)
    requires Filled(second, l, index, want') && WantsRun(want', l.joints, cs', isolated, false)
    requires IsOf(x, l.joints, j) && j !in isolated && There(s, x) && Willing(The(s, x)) && ArmingRuns.Calm(s)
    requires 0 < cfg.timing.hostLostCycles && 0 < cfg.timing.enableTimeoutMs && cfg.CycleMs() < U32
    ensures var down := Evolve(s, [Master.SetDiscovering(x.c, x.k, true), CycleWith([first])], cfg);
      && OffIn(down, x) && The(down, x).driveState.Discovering?
      && var up := Evolve(down, [Master.SetDiscovering(x.c, x.k, false), CycleWith([second])], cfg);
        There(up, x) && IsArmed(The(up, x).driveState)
  {
    hide ValidLayout, Indexed, Filled, WantsRun, Evolve, Arms, AlwaysAt, QuietAt, Willing;
    RunFrameArms(first, l, index, want, cs, isolated, s, x, j);
    RunFrameArms(second, l, index, want', cs', isolated, s, x, j);
    SlaveResetRearms(s, first, second, cfg, x);
  }

  /** Behind an envelope the wiring check accepts, a command the gate passes can be sent exactly when
      it has half an LSB of headroom, its gains being non-negative and within their limits. */
  lemma PassedIsRepresentable(w: Wiring, e: Envelope, c: JointCommand)
    requires Placed(w) && CheckEnvelope(w, e).None? && !e.positionMax.NaN?
    requires c.IsFinite() && Respects(c, e)
    requires AtMost(Real(0.0), c.stiffness) && AtMost(c.stiffness, e.stiffnessMax)
    requires AtMost(Real(0.0), c.damping) && AtMost(c.damping, e.dampingMax)
    ensures EncodeTuple(ToSetpoint(w, c)).representable <==> HasHeadroom(w, c)
  {
    hide EncodeTuple, ToSetpoint, HasHeadroom, CheckEnvelope;
    CheckEnvelopeExact(w, e);
    FittingLimitsAreNumbers(w, e);
    RespectsIsInside(c, e);
    RepresentableExactly(w, e, c);
  }

  lemma FittingLimitsAreNumbers(w: Wiring, e: Envelope)
    requires Placed(w) && EnvelopeFits(w, e)
    ensures LimitsAreNumbers(e)
  {
  }

  /** The gate does not look at the gains, so it passes one that no field of the wire can carry. */
  lemma UncheckedGainIsNotRepresentable(w: Wiring)
    requires w == Wiring(0, 0, 1, Real(0.0))
    ensures var e := Envelope(Real(-1.0), Real(1.0), Real(10.0), Real(10.0), Real(100.0), Real(5.0), Real(1.0));
      var c := ZERO_JOINT.(stiffness := Real(10000.0));
      && CheckEnvelope(w, e).None? && JointTrigger(c, e, None, 0.0) == NoTrigger
      && !EncodeTuple(ToSetpoint(w, c)).representable
  {
  }

  /** One exchange of the transport, as the hardware component sees it: a transport that echoes the
      command's sequence when it succeeds, and leaves the feedback alone when it fails. */
  method ExchangeAsOutcome(
    t: Stm32Transport, command: CommandBatch, feedback: FeedbackBatch, patience: nat)
    returns (outcome: Outcome, result: FeedbackBatch)
    requires t.Valid()
    modifies t
    ensures t.Valid() && result == AfterExchange(feedback, command.sequence, outcome)
    ensures var tries := t.active && |command.joints| == |t.layout.joints| &&
        !old(t.world).failed && !old(t.world).resetSeen;
      && t.active == old(t.active)
      && (!tries ==> outcome.Fails?)
      && (tries ==>
        && |t.statuses| == |old(t.statuses)| + 1
        && AnswerIs(
          if outcome.Fails? then outcome.error else NoError, t.statuses[|old(t.statuses)|], t.world,
          old(t.lastCycle), t.layout, t.isolated,
          CanCarry(t.layout, command.joints, t.isolated, t.monitorOnly)))
    ensures outcome.Fails? ==> outcome.error != NoError
    ensures outcome.Answers? ==>
      && t.active && |command.joints| == |t.layout.joints|
      && outcome.availability == t.availability && outcome.epoch == t.availabilityEpoch
  {
    hide ValidLayout, Indexed, Sound, Evolves, SentRun, Answered, CanCarry, FreshCount, AnswerIs, Moved, Sent,
      HasNewer, Newest;
    var error, answer, _ := t.Exchange(command, feedback, patience);
    result := answer;
    outcome :=
      if error != NoError then Fails(error) else Answers(result.joints, result.availability, result.epoch);
  }
}
