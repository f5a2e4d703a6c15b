/** The per-motor drive state machine: three pure decisions, and the latching discipline its
    callers follow. */
module DriveSm {

  datatype DriveState =
    Boot | Discovering | Absent | Disabled | Enabling | Enabled | Stopping | Clearing | Fault

  datatype DriveFault =
    NoFault | CanTimeout | MasterLost | EnableFailed | NotEnabled | Overtorque | MotorReported | Wound

  /** The request byte of a command; any value outside the four requests is `Undefined`. */
  datatype DriveReq = Disable | Enable | Stop | Reset | Undefined(code: int)

  datatype ReqDecision = ReqDecision(
    nextState: DriveState, rejected: bool, sendDisable: bool, sendClear: bool, beginEnable: bool,
    beginStop: bool, abortEnable: bool, latchFault: DriveFault, clearFault: bool, resetCmdSeq: bool)

  datatype FaultDecision = FaultDecision(
    nextState: DriveState, latchFault: DriveFault, sendDisable: bool, beginStop: bool,
    abortEnable: bool)

  datatype TickInputs = TickInputs(
    runSeen: bool, enableTimeout: bool, clearReply: bool, clearDirty: bool, clearTimeout: bool,
    stopDone: bool, faultLatched: bool, fbTimeout: bool, fbFresh: bool)

  datatype TickDecision = TickDecision(
    nextState: DriveState, latchFault: DriveFault, sendDisable: bool, enterEnabled: bool)

  predicate IsArmed(state: DriveState) {
    state.Enabling? || state.Enabled? || state.Stopping?
  }

  /** Where a fault can be detected: with a live or driven motor. */
  predicate Detectable(state: DriveState) {
    IsArmed(state) || state.Disabled?
  }

  predicate CommsBroken(fault: DriveFault) {
    fault.CanTimeout? || fault.NotEnabled? || fault.MotorReported? || fault.EnableFailed?
  }

  function OnRequest(state: DriveState, req: DriveReq, wound: bool, faultLatched: bool): ReqDecision {
    var stay := ReqDecision(state, false, false, false, false, false, false, NoFault, false, false);
    if state.Clearing? then stay
    else if state.Boot? || state.Discovering? then stay.(rejected := true)
    else
      match req
      case Disable =>
        if state.Enabling? then
          stay.(abortEnable := true, sendDisable := true, nextState := Disabled, resetCmdSeq := true)
        else if state.Enabled? then
          stay.(sendDisable := true, nextState := Disabled, resetCmdSeq := true)
        else if state.Stopping? then
          stay.(sendDisable := true, nextState := if faultLatched then Fault else Disabled,
                resetCmdSeq := true)
        else stay
      case Enable =>
        if state.Disabled? then
          if wound then stay.(nextState := Fault, latchFault := Wound, rejected := true)
          else stay.(beginEnable := true, nextState := Enabling, resetCmdSeq := true)
        else if IsArmed(state) then stay
        else stay.(rejected := true)
      case Stop =>
        if state.Enabled? then
          stay.(beginStop := true, nextState := Stopping, resetCmdSeq := true)
        else if state.Enabling? then
          stay.(abortEnable := true, sendDisable := true, nextState := Disabled, resetCmdSeq := true)
        else stay
      case Reset =>
        if state.Fault? then stay.(clearFault := true, sendClear := true, nextState := Clearing)
        else if state.Disabled? then stay
        else stay.(rejected := true)
      case Undefined(_) => stay.(rejected := true)
  }

  function OnFault(state: DriveState, fault: DriveFault, faultLatched: bool): FaultDecision {
    var stay :=
      FaultDecision(state, if faultLatched then NoFault else fault, false, false, false);
    if !Detectable(state) then stay
    else if CommsBroken(fault) then
      stay.(sendDisable := true, abortEnable := state.Enabling?, nextState := Fault)
    else if state.Enabled? then stay.(beginStop := true, nextState := Stopping)
    else if state.Stopping? then stay
    else stay.(sendDisable := true, abortEnable := state.Enabling?, nextState := Fault)
  }

  function OnTick(state: DriveState, i: TickInputs): TickDecision {
    var stay := TickDecision(state, NoFault, false, false);
    match state
    case Enabling =>
      if i.runSeen then stay.(nextState := Enabled, enterEnabled := true)
      else if i.enableTimeout then
        stay.(latchFault := if i.faultLatched then NoFault else EnableFailed, sendDisable := true,
              nextState := Fault)
      else stay
    case Clearing =>
      if i.clearReply then
        if i.clearDirty then stay.(latchFault := MotorReported, nextState := Fault)
        else stay.(nextState := Disabled)
      else if i.clearTimeout then stay.(nextState := Absent)
      else stay
    case Stopping =>
      if i.stopDone then stay.(nextState := if i.faultLatched then Fault else Disabled) else stay
    case Disabled => if i.fbTimeout then stay.(nextState := Absent) else stay
    case Absent => if i.fbFresh then stay.(nextState := Disabled) else stay
    case _ => stay
  }

  // ---- A drive: the state and the latched fault its owner stores ----

  datatype Drive = Drive(state: DriveState, fault: DriveFault)

  /** First fault wins: only a clean drive latches. */
  function Latch(current: DriveFault, fault: DriveFault): DriveFault {
    if current.NoFault? then fault else current
  }

  datatype Input =
    | Request(req: DriveReq, wound: bool)
    | Detected(fault: DriveFault)
    | Tick(inputs: TickInputs)

  function Step(d: Drive, input: Input): Drive {
    var latched := !d.fault.NoFault?;
    match input
    case Request(req, wound) =>
      var r := OnRequest(d.state, req, wound, latched);
      Drive(r.nextState, Latch(if r.clearFault then NoFault else d.fault, r.latchFault))
    case Detected(fault) =>
      var r := OnFault(d.state, fault, latched);
      Drive(r.nextState, Latch(d.fault, r.latchFault))
    case Tick(inputs) =>
      var r := OnTick(d.state, inputs.(faultLatched := latched));
      Drive(r.nextState, Latch(d.fault, r.latchFault))
  }

  /** A fault is detected only where it can be. */
  predicate Plausible(d: Drive, input: Input) {
    input.Detected? ==> Detectable(d.state) && !input.fault.NoFault?
  }

  /** FAULT always has its cause; every state but FAULT and STOPPING is clean. */
  predicate Latched(d: Drive) {
    && (d.state.Fault? ==> !d.fault.NoFault?)
    && (!d.state.Fault? && !d.state.Stopping? ==> d.fault.NoFault?)
  }

  // ---- What each input leads to ----

  /** DISABLE disarms, whatever the drive was doing, and loses no fault: a latched drive ends DISABLED
      if it was clean and in FAULT with its cause if it was not. It moves no drive that is not armed. */
  lemma DisableDisarms(d: Drive, wound: bool)
    ensures var n := Step(d, Request(Disable, wound));
      && !IsArmed(n.state) && n.fault == d.fault && (!IsArmed(d.state) ==> n == d)
      && (Latched(d) && IsArmed(d.state) ==> n.state == if d.fault.NoFault? then Disabled else Fault)
  {
  }

  /** STOP leaves at most a ramp, and starts one exactly from ENABLED. */
  lemma StopRamps(d: Drive, wound: bool)
    ensures var n := Step(d, Request(Stop, wound));
      && (IsArmed(n.state) <==> d.state.Enabled? || d.state.Stopping?)
      && (IsArmed(n.state) ==> n.state.Stopping?)
      && (!IsArmed(d.state) ==> n == d) && n.fault == d.fault
      && (d.state.Enabling? ==> n.state.Disabled?)
  {
  }

  /** ENABLE moves a DISABLED drive alone: up, or with a wound shaft into FAULT. */
  lemma EnableStarts(d: Drive, wound: bool)
    ensures var n := Step(d, Request(Enable, wound));
      if !d.state.Disabled? then n == d
      else if !wound then n == Drive(Enabling, d.fault)
      else n == Drive(Fault, if d.fault.NoFault? then Wound else d.fault)
  {
  }

  /** RESET moves a faulted drive alone, and forgets its fault; a value that is no request moves none. */
  lemma ResetClears(d: Drive, wound: bool, code: int)
    ensures Step(d, Request(Reset, wound)) == if d.state.Fault? then Drive(Clearing, NoFault) else d
    ensures Step(d, Request(Undefined(code), wound)) == d
  {
  }

  /** What the drive itself is told follows from how its state moves: to stop driving exactly when it
      leaves the armed states, to clear on the way to CLEARING, and so on; and its count of applied
      commands starts afresh whenever it moves into, out of or among the armed states. */
  lemma RequestTells(state: DriveState, req: DriveReq, wound: bool, latched: bool)
    ensures var d := OnRequest(state, req, wound, latched);
      && (d.sendDisable <==> IsArmed(state) && !IsArmed(d.nextState))
      && (d.abortEnable <==> state.Enabling? && !d.nextState.Enabling?)
      && (d.beginEnable <==> d.nextState.Enabling? && !state.Enabling?)
      && (d.beginStop <==> d.nextState.Stopping? && !state.Stopping?)
      && (d.sendClear <==> d.nextState.Clearing? && !state.Clearing?)
      && (d.clearFault <==> d.sendClear)
      && (d.resetCmdSeq <==> d.nextState != state && (IsArmed(state) || IsArmed(d.nextState)))
      && (d.latchFault.NoFault? || (d.latchFault.Wound? && state.Disabled? && req.Enable? && wound))
  {
  }

  /** A request is rejected exactly when it is unknown, or the drive is still coming up, or it is an
      ENABLE or RESET that the state does not allow; CLEARING rejects nothing. */
  lemma RejectedExactly(state: DriveState, req: DriveReq, wound: bool, latched: bool)
    ensures OnRequest(state, req, wound, latched).rejected <==>
      && !state.Clearing?
      && (|| state.Boot? || state.Discovering? || req.Undefined?
          || (req.Enable? && (state.Absent? || state.Fault? || (state.Disabled? && wound)))
          || (req.Reset? && (state.Absent? || IsArmed(state))))
  {
  }

  /** A fault detected of a live or driven motor: the first one is kept; it ramps only an ENABLED or
      already ramping motor whose drive can still be talked to, and puts any other in FAULT. */
  lemma FaultLeads(d: Drive, fault: DriveFault)
    requires !fault.NoFault?
    ensures var n := Step(d, Detected(fault));
      && n.fault == (if d.fault.NoFault? then fault else d.fault)
      && var heard := fault.Overtorque? || fault.MasterLost? || fault.Wound?;
        if !(IsArmed(d.state) || d.state.Disabled?) then n.state == d.state
        else if heard && (d.state.Enabled? || d.state.Stopping?) then n.state.Stopping?
        else n.state.Fault?
  {
  }

  lemma FaultTells(state: DriveState, fault: DriveFault, latched: bool)
    ensures var d := OnFault(state, fault, latched);
      && (d.sendDisable <==> d.nextState.Fault? && !state.Fault?)
      && (d.abortEnable <==> d.nextState.Fault? && state.Enabling?)
      && (d.beginStop <==> d.nextState.Stopping? && !state.Stopping?)
  {
  }

  /** What a tick leads to, by where it ends. */
  lemma TickLeads(d: Drive, i: TickInputs)
    ensures var n := Step(d, Tick(i)).state;
      && (n.Boot? <==> d.state.Boot?) && (n.Discovering? <==> d.state.Discovering?)
      && (n.Enabling? <==> d.state.Enabling? && !i.runSeen && !i.enableTimeout)
      && (n.Enabled? <==> d.state.Enabled? || (d.state.Enabling? && i.runSeen))
      && (n.Stopping? <==> d.state.Stopping? && !i.stopDone)
      && (n.Clearing? <==> d.state.Clearing? && !i.clearReply && !i.clearTimeout)
      && (n.Absent? <==>
        || (d.state.Absent? && !i.fbFresh) || (d.state.Disabled? && i.fbTimeout)
        || (d.state.Clearing? && !i.clearReply && i.clearTimeout))
      && (n.Fault? <==>
        || d.state.Fault? || (d.state.Enabling? && !i.runSeen && i.enableTimeout)
        || (d.state.Clearing? && i.clearReply && i.clearDirty)
        || (d.state.Stopping? && i.stopDone && !d.fault.NoFault?))
  {
  }

  /** A tick latches a fault of its own only on the way to FAULT, and says which; and it tells a drive
      that never ran to stop. */
  lemma TickTells(d: Drive, i: TickInputs)
    ensures var n := Step(d, Tick(i));
      n.fault ==
        if !d.fault.NoFault? || !n.state.Fault? then d.fault
        else if d.state.Enabling? then EnableFailed
        else if d.state.Clearing? then MotorReported
        else NoFault
    ensures var t := OnTick(d.state, i);
      && (t.sendDisable <==> d.state.Enabling? && t.nextState.Fault?)
      && (t.enterEnabled <==> d.state.Enabling? && t.nextState.Enabled?)
  {
  }

  function Run(d: Drive, inputs: seq<Input>): Drive
    decreases |inputs|
  {
    if inputs == [] then d else Run(Step(d, inputs[0]), inputs[1..])
  }

  ghost predicate PlausibleRun(d: Drive, inputs: seq<Input>)
    decreases |inputs|
  {
    inputs == [] || (Plausible(d, inputs[0]) && PlausibleRun(Step(d, inputs[0]), inputs[1..]))
  }

  /** An input that cannot break the latch. Every request and tick is one; so is a fault reported
      where it can be detected or in FAULT; and a report of no fault at all, unless the drive is one
      that such a report sends to FAULT without a cause. */
  predicate Harmless(d: Drive, input: Input) {
    input.Detected? ==>
      if input.fault.NoFault? then !d.state.Enabling? && !d.state.Disabled?
      else Detectable(d.state) || d.state.Fault?
  }

  /** The exact condition, one step at a time. */
  lemma StepKeepsLatchExactly(d: Drive, input: Input)
    requires Latched(d)
    ensures Latched(Step(d, input)) <==> Harmless(d, input)
  {
  }

  ghost predicate HarmlessRun(d: Drive, inputs: seq<Input>)
    decreases |inputs|
  {
    inputs == [] || (Harmless(d, inputs[0]) && HarmlessRun(Step(d, inputs[0]), inputs[1..]))
  }

  /** Latched here and after every input of the run. */
  ghost predicate LatchedThroughout(d: Drive, inputs: seq<Input>)
    decreases |inputs|
  {
    Latched(d) && (inputs == [] || LatchedThroughout(Step(d, inputs[0]), inputs[1..]))
  }

  /** A run keeps the latch from end to end exactly when each of its inputs is harmless where it
      comes. */
  lemma {:induction false} RunKeepsLatchExactly(d: Drive, inputs: seq<Input>)
    requires Latched(d)
    ensures LatchedThroughout(d, inputs) <==> HarmlessRun(d, inputs)
    decreases |inputs|
  {
    if inputs == [] {
    } else {
      StepKeepsLatchExactly(d, inputs[0]);
      if Harmless(d, inputs[0]) {
        RunKeepsLatchExactly(Step(d, inputs[0]), inputs[1..]);
      }
    }
  }

  lemma {:induction false} LatchedAtTheEnd(d: Drive, inputs: seq<Input>)
    requires LatchedThroughout(d, inputs)
    ensures Latched(Run(d, inputs))
    decreases |inputs|
  {
    if inputs == [] {
    } else {
      LatchedAtTheEnd(Step(d, inputs[0]), inputs[1..]);
    }
  }

  lemma {:induction false} PlausibleIsHarmless(d: Drive, inputs: seq<Input>)
    requires PlausibleRun(d, inputs)
    ensures HarmlessRun(d, inputs)
    decreases |inputs|
  {
    if inputs == [] {
    } else {
      PlausibleIsHarmless(Step(d, inputs[0]), inputs[1..]);
    }
  }

  /** In particular when faults are reported only where they can be detected. */
  lemma LatchInvariant(d: Drive, inputs: seq<Input>)
    requires Latched(d) && PlausibleRun(d, inputs)
    ensures Latched(Run(d, inputs))
  {
    PlausibleIsHarmless(d, inputs);
    RunKeepsLatchExactly(d, inputs);
    LatchedAtTheEnd(d, inputs);
  }

  /** Whether a run enters CLEARING. */
  ghost predicate EntersClearing(d: Drive, inputs: seq<Input>)
    decreases |inputs|
  {
    inputs != [] &&
    (Step(d, inputs[0]).state.Clearing? || EntersClearing(Step(d, inputs[0]), inputs[1..]))
  }

  /** The first fault survives, unchanged, every run that does not enter CLEARING; meanwhile the
      drive is in FAULT or on its way there, even if a DISABLE cuts the ramp short. */
  lemma {:induction false} FirstFaultSurvives(d: Drive, inputs: seq<Input>)
    requires Latched(d) && PlausibleRun(d, inputs) && !d.fault.NoFault?
    requires !EntersClearing(d, inputs)
    ensures Run(d, inputs).fault == d.fault
    ensures d.state.Fault? ==> Run(d, inputs).state.Fault?
    ensures d.state.Stopping? ==> Run(d, inputs).state.Stopping? || Run(d, inputs).state.Fault?
    decreases |inputs|
  {
    if inputs == [] {
    } else {
      FirstFaultSurvives(Step(d, inputs[0]), inputs[1..]);
    }
  }

  /** FAULT is left by RESET alone, whatever else happens. */
  lemma {:induction false} OnlyResetLeavesFault(d: Drive, inputs: seq<Input>)
    requires d.state.Fault? && !d.fault.NoFault?
    requires forall i :: i in inputs ==> !(i.Request? && i.req.Reset?)
    ensures Run(d, inputs) == d
    decreases |inputs|
  {
    if inputs == [] {
    } else {
      assert inputs[0] in inputs;
      OnlyResetLeavesFault(Step(d, inputs[0]), inputs[1..]);
    }
  }

  /** A drive becomes armed only by ENABLE, from DISABLED, with the shaft not wound. */
  lemma OnlyEnableArms(d: Drive, input: Input)
    requires !IsArmed(d.state) && IsArmed(Step(d, input).state)
    ensures d.state.Disabled? && input.Request? && input.req.Enable? && !input.wound
    ensures Step(d, input).state.Enabling?
  {
  }

  /** A harmful input at work: reported to a CLEARING drive, a fault is latched
      without moving it, and the drive then comes back DISABLED with the fault still latched. */
  lemma UndetectableFaultBreaksLatch()
    ensures var d := Run(Drive(Clearing, NoFault),
        [Detected(Overtorque), Tick(TickInputs(false, false, true, false, false, false, false, false, false))]);
      d.state.Disabled? && d.fault.Overtorque? && !Latched(d)
  {
    var d := Drive(Clearing, NoFault);
    var tick := Tick(TickInputs(false, false, true, false, false, false, false, false, false));
    var inputs := [Detected(Overtorque), tick];
    assert inputs[1..] == [tick] && inputs[1..][1..] == [];
    assert Run(d, inputs) == Run(Step(d, inputs[0]), [tick]);
    assert Run(Step(d, inputs[0]), [tick]) == Step(Step(d, inputs[0]), tick);
  }
}
