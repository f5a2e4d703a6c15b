/** The master's cycle: the mailbox, the host-death dead-man, the drive requests, and the drives
    behind them, as plain values. */
module Master {
  import opened Wrappers
  import opened Bits
  import opened Framing
  import opened Telemetry
  import opened DriveSm

  datatype Timing = Timing(
    canFbTimeoutMs: nat, enableTimeoutMs: nat, clearTimeoutMs: nat, stopRampMs: nat,
    hostLostCycles: nat)

  const FIRMWARE_TIMING := Timing(100, 100, 100, 300, 5)
  const ENABLE_RUN_MS := 10          // how soon a simulated drive reports Run
  const AGE_SATURATION_MS := 255
  const U32 := 0x1_0000_0000

  datatype CmdMotor = CmdMotor(
    driveReq: DriveReq, pos: i16, vel: i16, kp: u16, kd: u16, tauFf: i16, valid: bool,
    useConfigGains: bool)

  datatype CmdChain = CmdChain(chainId: byte, nMotors: byte, motors: seq<CmdMotor>)

  datatype CmdRobot = CmdRobot(cycleId: u16, cmdSeq: u16, nChains: byte, chains: seq<CmdChain>)

  /** Arrays of the wire's fixed capacity. */
  predicate WireSized(c: CmdRobot) {
    |c.chains| == MAX_CHAINS && forall i :: 0 <= i < MAX_CHAINS ==> |c.chains[i].motors| == MAX_MOTORS
  }

  type Command = c: CmdRobot | WireSized(c) witness ZERO_COMMAND

  const ZERO_CMD_MOTOR := CmdMotor(Disable, 0, 0, 0, 0, 0, false, false)
  const ZERO_CMD_MOTORS :=
    [ZERO_CMD_MOTOR, ZERO_CMD_MOTOR, ZERO_CMD_MOTOR, ZERO_CMD_MOTOR, ZERO_CMD_MOTOR]
  const ZERO_CMD_CHAIN := CmdChain(0, 0, ZERO_CMD_MOTORS)
  const ZERO_COMMAND :=
    CmdRobot(0, 0, 0, [ZERO_CMD_CHAIN, ZERO_CMD_CHAIN, ZERO_CMD_CHAIN, ZERO_CMD_CHAIN])

  /** The last two fields are history: nothing reads them. `reboots` counts the times the motor's
      slave was seen to start again, `spurious` the faults reported with no cause. */
  datatype Motor = Motor(
    driveState: DriveState, driveFault: DriveFault, rsMode: byte, pos: i16, vel: i16, tau: i16,
    shaft: i16, hold: i16, haveTuple: bool, lastApplied: u16, fbAge: byte, unansweredMs: nat,
    stateMs: nat, motorFault: byte, rejected: bool, wound: bool, driveAnswers: bool,
    enableNeverRuns: bool, reboots: nat, spurious: nat)

  datatype Chain = Chain(id: byte, motors: seq<Motor>, dropped: bool, mismatch: bool)

  datatype State = State(
    chains: seq<Chain>, pending: Option<Command>, active: Option<Command>, cmdSeqRx: u16,
    cmdSeqActive: u16, cyclesSinceFresh: nat, hostLost: bool, cycleId: u16, masterTimeUs: u32)

  datatype Config = Config(timing: Timing, cycleUs: nat) {
    function CycleMs(): nat { cycleUs / 1000 }
  }

  // ---- One motor ----

  function DriveOf(m: Motor): Drive {
    Drive(m.driveState, m.driveFault)
  }

  /** The master's version gate: while any slave mismatches, an ENABLE for a motor that is not
      armed becomes a DISABLE. */
  function GateFilter(req: DriveReq, state: DriveState): DriveReq {
    if req.Enable? && !IsArmed(state) then Disable else req
  }

  function ApplyRequest(m: Motor, request: CmdMotor, cmdSeqActive: u16): Motor {
    var d := OnRequest(m.driveState, request.driveReq, m.wound, !m.driveFault.NoFault?);
    var m1 := m.(
      rejected := d.rejected,
      driveFault := Latch(if d.clearFault then NoFault else m.driveFault, d.latchFault),
      rsMode := if d.beginEnable then 0 else m.rsMode,
      haveTuple := m.haveTuple && !d.beginEnable,
      stateMs := if d.beginEnable || d.sendClear || d.beginStop then 0 else m.stateMs,
      lastApplied := if d.resetCmdSeq then 0 else m.lastApplied,
      driveState := d.nextState);
    if request.valid && (m1.driveState.Enabled? || m1.driveState.Enabling?) then
      var m2 := m1.(haveTuple := true, hold := request.pos);
      if m2.driveState.Enabled? then
        m2.(pos := request.pos, vel := request.vel, tau := request.tauFf, shaft := request.pos,
            lastApplied := cmdSeqActive)
      else m2
    else m1
  }

  /** One tick of the slave for one motor. */
  function PollMotor(m: Motor, cfg: Config): Motor {
    var cycleMs := cfg.CycleMs();
    var state := m.driveState;
    var pollable := state.Disabled? || IsArmed(state) || state.Clearing?;
    var m1 :=
      if pollable && m.driveAnswers then
        var shaft := if state.Enabled? && m.haveTuple then m.hold else m.shaft;
        m.(shaft := shaft, pos := shaft, unansweredMs := 0)
      else
        var age := m.unansweredMs + cycleMs;
        m.(unansweredMs := if age < AGE_SATURATION_MS then age else AGE_SATURATION_MS);
    if IsArmed(state) && !m1.driveAnswers && m1.unansweredMs >= cfg.timing.canFbTimeoutMs then
      var d := OnFault(state, CanTimeout, !m1.driveFault.NoFault?);
      m1.(driveFault := Latch(m1.driveFault, d.latchFault), driveState := d.nextState)
    else
      var m2 :=
        if state.Enabling? && m1.driveAnswers && !m1.enableNeverRuns && m1.stateMs >= ENABLE_RUN_MS
        then m1.(rsMode := 2) else m1;
      var d := OnTick(state, Inputs(m2, cfg));
      var rsMode: byte :=
        if d.enterEnabled then 2
        else if d.nextState.Disabled? && !state.Disabled? then 0
        else m2.rsMode;
      m2.(driveFault := Latch(m2.driveFault, d.latchFault),
          rsMode := rsMode,
          shaft := if d.enterEnabled && m2.haveTuple then m2.hold else m2.shaft,
          driveState := d.nextState,
          stateMs := if IsArmed(d.nextState) || d.nextState.Clearing?
                     then (m2.stateMs + cycleMs) % U32 else m2.stateMs)
  }

  function Inputs(m: Motor, cfg: Config): TickInputs {
    var state := m.driveState;
    var clearReply := state.Clearing? && m.driveAnswers && m.stateMs >= cfg.CycleMs();
    TickInputs(
      m.rsMode == 2 && state.Enabling?,
      state.Enabling? && m.stateMs >= cfg.timing.enableTimeoutMs,
      clearReply,
      clearReply && m.motorFault != 0,
      state.Clearing? && !m.driveAnswers && m.stateMs >= cfg.timing.clearTimeoutMs,
      state.Stopping? && m.stateMs >= cfg.timing.stopRampMs,
      !m.driveFault.NoFault?,
      state.Disabled? && !m.driveAnswers && m.unansweredMs >= cfg.timing.canFbTimeoutMs,
      state.Absent? && m.driveAnswers)
  }

  // ---- The whole robot ----

  predicate AnyArmed(chains: seq<Chain>) {
    exists c, k :: 0 <= c < |chains| && 0 <= k < |chains[c].motors| &&
      IsArmed(chains[c].motors[k].driveState)
  }

  predicate AnyMismatch(chains: seq<Chain>) {
    exists c :: 0 <= c < |chains| && chains[c].mismatch
  }

  function Min(a: nat, b: nat): nat {
    if a < b then a else b
  }

  /** The slots of one chain that a command for it reaches. */
  function SlotCount(requested: CmdChain, chain: Chain): nat {
    Min(Min(requested.nMotors, |chain.motors|), MAX_MOTORS)
  }

  predicate CarriesReset(c: Command) {
    exists i, k :: 0 <= i < Min(c.nChains, MAX_CHAINS) &&
      0 <= k < Min(c.chains[i].nMotors, MAX_MOTORS) && c.chains[i].motors[k].driveReq.Reset?
  }

  /** The request as the master forwards it. */
  function Forwarded(r: CmdMotor, state: DriveState, hostLost: bool, gate: bool): CmdMotor {
    if hostLost then r.(driveReq := Stop, valid := false, useConfigGains := false)
    else if gate then r.(driveReq := GateFilter(r.driveReq, state))
    else r
  }

  function ApplyToChain(chain: Chain, requested: CmdChain, hostLost: bool, gate: bool, cmdSeq: u16): Chain
    requires |requested.motors| == MAX_MOTORS
  {
    if chain.id != requested.chainId || chain.mismatch then chain
    else
      chain.(motors := seq(|chain.motors|, k requires 0 <= k < |chain.motors| =>
        if k < SlotCount(requested, chain) then
          ApplyRequest(chain.motors[k],
            Forwarded(requested.motors[k], chain.motors[k].driveState, hostLost, gate), cmdSeq)
        else chain.motors[k]))
  }

  /** The first n chains of the command, in order, applied to every chain they name. */
  function ApplyChains(chains: seq<Chain>, c: Command, n: nat, hostLost: bool, gate: bool, cmdSeq: u16)
    : (r: seq<Chain>)
    requires n <= MAX_CHAINS
    ensures |r| == |chains|
  {
    if n == 0 then chains
    else
      var before := ApplyChains(chains, c, n - 1, hostLost, gate, cmdSeq);
      seq(|chains|, i requires 0 <= i < |chains| =>
        ApplyToChain(before[i], c.chains[n - 1], hostLost, gate, cmdSeq))
  }

  function ApplyRequests(s: State): (r: State)
    ensures |r.chains| == |s.chains|
  {
    match s.active
    case None => s
    case Some(c) =>
      s.(chains := ApplyChains(s.chains, c, Min(c.nChains, MAX_CHAINS), s.hostLost,
                               AnyMismatch(s.chains), s.cmdSeqActive))
  }

  function PollChain(chain: Chain, cfg: Config): Chain {
    chain.(motors := seq(|chain.motors|, k requires 0 <= k < |chain.motors| =>
      PollMotor(chain.motors[k], cfg)))
  }

  function PollDrives(s: State, cfg: Config): State {
    s.(chains := seq(|s.chains|, i requires 0 <= i < |s.chains| => PollChain(s.chains[i], cfg)))
  }

  /** The commands read before this cycle: the mailbox keeps the last. */
  function ReadHost(s: State, arrivals: seq<Command>): State {
    if arrivals == [] then s
    else
      var last := arrivals[|arrivals| - 1];
      s.(pending := Some(last), cmdSeqRx := last.cmdSeq)
  }

  /** The mailbox swap and the dead-man. */
  function Swap(s: State, cfg: Config): State {
    var s1 := s.(
      cycleId := (s.cycleId + 1) % 0x1_0000,
      masterTimeUs := (s.masterTimeUs + cfg.cycleUs) % U32,
      pending := None,
      active := if s.pending.Some? then s.pending else s.active,
      cmdSeqActive := if s.pending.Some? then s.pending.value.cmdSeq else s.cmdSeqActive,
      cyclesSinceFresh := if s.pending.Some? then 0 else (s.cyclesSinceFresh + 1) % U32);
    var resetSeen := s.pending.Some? && CarriesReset(s.pending.value);
    s1.(hostLost := Watchdog(s.hostLost, s1.cyclesSinceFresh, AnyArmed(s.chains), resetSeen,
                             cfg.timing.hostLostCycles))
  }

  function Watchdog(lost: bool, cyclesSinceFresh: nat, armed: bool, resetSeen: bool, lostCycles: nat): bool {
    (lost && !resetSeen) || (armed && cyclesSinceFresh >= lostCycles)
  }

  function Cycle(s: State, arrivals: seq<Command>, cfg: Config): State {
    PollDrives(ApplyRequests(Swap(ReadHost(s, arrivals), cfg)), cfg)
  }

  // ---- What else happens to a robot between cycles ----

  datatype Event =
    | CycleWith(arrivals: seq<Command>)
    | ForceFault(c: nat, k: nat, fault: DriveFault)
    | SetWound(c: nat, k: nat, wound: bool)
    | SetFbAge(c: nat, k: nat, age: byte)
    | SetMeasured(c: nat, k: nat, pos: i16, vel: i16, tau: i16)
    | SetAnswers(c: nat, k: nat, answers: bool)
    | SetNeverRuns(c: nat, k: nat, never: bool)
    | SetDropped(c: nat, dropped: bool)
    | SetMismatch(c: nat, mismatch: bool)
    | SetDiscovering(c: nat, k: nat, discovering: bool)
    | SetUndiscovered(c: nat, k: nat)

  function FaultMotor(m: Motor, fault: DriveFault): Motor {
    var d := OnFault(m.driveState, fault, !m.driveFault.NoFault?);
    m.(driveFault := Latch(m.driveFault, d.latchFault),
       stateMs := if d.beginStop then 0 else m.stateMs,
       motorFault := if fault.MotorReported? then 0x20 else m.motorFault,
       driveState := d.nextState,
       spurious := m.spurious + if fault.NoFault? then 1 else 0)
  }

  /** An event at one motor; events at a motor that does not exist change nothing. A slave that
      starts again puts its motors in DISCOVERING, and then in DISABLED, or in ABSENT if it does not
      find them. */
  function MotorEvent(m: Motor, e: Event): Motor {
    match e
    case ForceFault(_, _, fault) => FaultMotor(m, fault)
    case SetWound(_, _, wound) => m.(wound := wound)
    case SetFbAge(_, _, age) => m.(fbAge := age)
    case SetMeasured(_, _, pos, vel, tau) => m.(shaft := pos, vel := vel, tau := tau)
    case SetAnswers(_, _, answers) => m.(driveAnswers := answers)
    case SetNeverRuns(_, _, never) => m.(enableNeverRuns := never)
    case SetDiscovering(_, _, discovering) =>
      m.(driveState := if discovering then Discovering else Disabled, reboots := m.reboots + 1)
    case SetUndiscovered(_, _) =>
      m.(driveAnswers := false, driveState := Absent, pos := 0, vel := 0, tau := 0,
         unansweredMs := AGE_SATURATION_MS, reboots := m.reboots + 1)
    case _ => m
  }

  function Happen(s: State, e: Event, cfg: Config): State {
    match e
    case CycleWith(arrivals) => Cycle(s, arrivals, cfg)
    case SetDropped(c, dropped) =>
      if c < |s.chains| then s.(chains := s.chains[c := s.chains[c].(dropped := dropped)]) else s
    case SetMismatch(c, mismatch) =>
      if c < |s.chains| then s.(chains := s.chains[c := s.chains[c].(mismatch := mismatch)]) else s
    case _ =>
      if e.c < |s.chains| && e.k < |s.chains[e.c].motors| then
        var chain := s.chains[e.c];
        s.(chains := s.chains[e.c :=
          chain.(motors := chain.motors[e.k := MotorEvent(chain.motors[e.k], e)])])
      else s
  }

  function Evolve(s: State, events: seq<Event>, cfg: Config): State
    decreases |events|
  {
    if events == [] then s else Evolve(Happen(s, events[0], cfg), events[1..], cfg)
  }
}
