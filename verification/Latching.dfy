/** The drive state machine as the master runs it: every motor of the robot keeps the latching
    discipline, and FAULT is left by RESET alone. */
module Latching {
  import opened Framing
  import opened Telemetry
  import opened DriveSm
  import opened Master
  import opened DeadMan

  // ---- One motor's drive moves by the state machine ----

  lemma RequestIsStep(m: Motor, r: CmdMotor, q: u16)
    ensures DriveOf(ApplyRequest(m, r, q)) == Step(DriveOf(m), Request(r.driveReq, m.wound))
  {
  }

  /** What a poll puts to the state machine. */
  function PollInput(m: Motor, cfg: Config): Input {
    var aged := m.unansweredMs + cfg.CycleMs();
    if IsArmed(m.driveState) && !m.driveAnswers &&
       Min(aged, AGE_SATURATION_MS) >= cfg.timing.canFbTimeoutMs
    then Detected(CanTimeout)
    else Tick(PollTick(m, cfg))
  }

  function PollTick(m: Motor, cfg: Config): TickInputs {
    var pollable := m.driveState.Disabled? || IsArmed(m.driveState) || m.driveState.Clearing?;
    var unanswered :=
      if pollable && m.driveAnswers then 0 else Min(m.unansweredMs + cfg.CycleMs(), AGE_SATURATION_MS);
    var running := m.driveState.Enabling? && m.driveAnswers && !m.enableNeverRuns &&
      m.stateMs >= ENABLE_RUN_MS;
    Inputs(m.(unansweredMs := unanswered, rsMode := if running then 2 else m.rsMode), cfg)
  }

  lemma PollIsStep(m: Motor, cfg: Config)
    ensures DriveOf(PollMotor(m, cfg)) == Step(DriveOf(m), PollInput(m, cfg))
    ensures Plausible(DriveOf(m), PollInput(m, cfg))
  {
  }

  // ---- A property of one motor that requests of one kind keep ----

  /** What a request satisfying R, forwarded as the master forwards it, does to a motor in P. */
  ghost predicate Carries(P: Motor -> bool, R: CmdMotor -> bool, lost: bool, gate: bool) {
    forall m: Motor, r: CmdMotor, q: u16 :: P(m) && R(r) ==>
      P(ApplyRequest(m, Forwarded(r, m.driveState, lost, gate), q))
  }

  lemma {:induction false} ApplyChainsCarries(
    P: Motor -> bool, R: CmdMotor -> bool, chains: seq<Chain>, cmd: Command, n: nat, lost: bool,
    gate: bool, q: u16, c: nat, k: nat)
    requires n <= MAX_CHAINS && c < |chains| && k < |chains[c].motors|
    requires Carries(P, R, lost, gate)
    requires forall i :: 0 <= i < n && Names(cmd.chains[i], chains[c], k) ==> R(cmd.chains[i].motors[k])
    requires P(chains[c].motors[k])
    ensures SameShape(chains, ApplyChains(chains, cmd, n, lost, gate, q))
    ensures P(ApplyChains(chains, cmd, n, lost, gate, q)[c].motors[k])
  {
    hide ApplyRequest, Forwarded;
    ApplyChainsKeepsShape(chains, cmd, n, lost, gate, q);
    if n == 0 {
    } else {
      ApplyChainsCarries(P, R, chains, cmd, n - 1, lost, gate, q, c, k);
      ApplyChainsKeepsShape(chains, cmd, n - 1, lost, gate, q);
      var before := ApplyChains(chains, cmd, n - 1, lost, gate, q)[c];
      var r := cmd.chains[n - 1];
      assert Names(r, before, k) == Names(r, chains[c], k);
    }
  }

  /** Every request the active command makes of motor k of chain c satisfies R. */
  ghost predicate Asked(R: CmdMotor -> bool, s: State, c: nat, k: nat)
    requires c < |s.chains|
  {
    s.active.Some? ==>
      forall i | 0 <= i < Min(s.active.value.nChains, MAX_CHAINS) &&
                 Names(s.active.value.chains[i], s.chains[c], k) ::
        R(s.active.value.chains[i].motors[k])
  }

  /** A cycle takes a motor from P, which the requests keep, to Q, where the poll leads. */
  lemma CycleCarries(
    P: Motor -> bool, Q: Motor -> bool, R: CmdMotor -> bool, s: State, arrivals: seq<Command>,
    cfg: Config, c: nat, k: nat)
    requires Exists(s, c, k) && P(MotorAt(s, c, k))
    requires var s1 := Swap(ReadHost(s, arrivals), cfg);
      Carries(P, R, s1.hostLost, AnyMismatch(s1.chains)) && Asked(R, s1, c, k)
    requires forall m: Motor :: P(m) ==> Q(PollMotor(m, cfg))
    ensures Exists(Cycle(s, arrivals, cfg), c, k) && Q(MotorAt(Cycle(s, arrivals, cfg), c, k))
  {
    hide ApplyChains, PollMotor, ApplyRequest, Forwarded, AnyArmed, CarriesReset, Carries;
    HappenKeepsShape(s, CycleWith(arrivals), cfg);
    var s1 := Swap(ReadHost(s, arrivals), cfg);
    if s1.active.Some? {
      ApplyChainsCarries(P, R, s1.chains, s1.active.value, Min(s1.active.value.nChains, MAX_CHAINS),
                         s1.hostLost, AnyMismatch(s1.chains), s1.cmdSeqActive, c, k);
    }
  }

  /** Every request the active command makes of the motor, as forwarded, satisfies R. */
  ghost predicate Asks(R: CmdMotor -> bool, s: State, c: nat, k: nat)
    requires c < |s.chains|
  {
    Asked(r => forall st :: R(Forwarded(r, st, s.hostLost, AnyMismatch(s.chains))), s, c, k)
  }

  /** In particular a property that requests in R and the poll all keep. */
  lemma CycleKeeps(
    P: Motor -> bool, R: CmdMotor -> bool, s: State, arrivals: seq<Command>, cfg: Config, c: nat, k: nat)
    requires Exists(s, c, k) && P(MotorAt(s, c, k))
    requires forall m: Motor, r: CmdMotor, q: u16 :: P(m) && R(r) ==> P(ApplyRequest(m, r, q))
    requires forall m: Motor :: P(m) ==> P(PollMotor(m, cfg))
    requires Asks(R, Swap(ReadHost(s, arrivals), cfg), c, k)
    ensures Exists(Cycle(s, arrivals, cfg), c, k) && P(MotorAt(Cycle(s, arrivals, cfg), c, k))
  {
    hide PollMotor, ApplyRequest, Forwarded, Swap, ReadHost, Cycle, Asked;
    var s1 := Swap(ReadHost(s, arrivals), cfg);
    var A := (r: CmdMotor) => forall st :: R(Forwarded(r, st, s1.hostLost, AnyMismatch(s1.chains)));
    CycleCarries(P, P, A, s, arrivals, cfg, c, k);
  }

  // ---- The latch, over the whole robot ----

  ghost predicate AllLatched(s: State) {
    forall c: nat, k: nat :: Exists(s, c, k) ==> Latched(DriveOf(MotorAt(s, c, k)))
  }

  /** The motor's slave is seen to start again. */
  predicate Restarts(e: Event) {
    e.SetDiscovering? || e.SetUndiscovered?
  }

  /** A forced fault is one that cannot break the latch, and no slave starts again with a fault
      latched. */
  predicate HarmlessEvent(s: State, e: Event) {
    match e
    case ForceFault(c, k, fault) =>
      Exists(s, c, k) ==> Harmless(DriveOf(MotorAt(s, c, k)), Detected(fault))
    case SetDiscovering(c, k, _) => Exists(s, c, k) ==> MotorAt(s, c, k).driveFault.NoFault?
    case SetUndiscovered(c, k) => Exists(s, c, k) ==> MotorAt(s, c, k).driveFault.NoFault?
    case _ => true
  }

  lemma CycleKeepsLatched(s: State, arrivals: seq<Command>, cfg: Config, c: nat, k: nat)
    requires Exists(s, c, k) && Latched(DriveOf(MotorAt(s, c, k)))
    ensures Exists(Cycle(s, arrivals, cfg), c, k)
    ensures Latched(DriveOf(MotorAt(Cycle(s, arrivals, cfg), c, k)))
  {
    hide PollMotor, ApplyRequest, Cycle, Swap;
    var P := (m: Motor) => Latched(DriveOf(m));
    forall m: Motor, r: CmdMotor, q: u16 | P(m)
      ensures P(ApplyRequest(m, r, q))
    {
      RequestIsStep(m, r, q);
    }
    forall m: Motor | P(m)
      ensures P(PollMotor(m, cfg))
    {
      PollIsStep(m, cfg);
    }
    CycleKeeps(P, _ => true, s, arrivals, cfg, c, k);
  }

  /** The exact condition for one motor and one event. */
  lemma EventKeepsLatched(s: State, e: Event, cfg: Config, c: nat, k: nat)
    requires !e.CycleWith? && Exists(s, c, k) && Latched(DriveOf(MotorAt(s, c, k)))
    ensures Exists(Happen(s, e, cfg), c, k)
    ensures HarmlessEvent(s, e) ==> Latched(DriveOf(MotorAt(Happen(s, e, cfg), c, k)))
    ensures (e.ForceFault? || Restarts(e)) && e.c == c && e.k == k && !HarmlessEvent(s, e) ==>
      !Latched(DriveOf(MotorAt(Happen(s, e, cfg), c, k)))
  {
    EventChangesOne(s, e, cfg, c, k);
    hide Happen;
  }

  /** The robot is latched now and after every event. */
  ghost predicate AlwaysLatched(s: State, events: seq<Event>, cfg: Config)
    decreases |events|
  {
    AllLatched(s) && (events == [] || AlwaysLatched(Happen(s, events[0], cfg), events[1..], cfg))
  }

  ghost predicate HarmlessEvents(s: State, events: seq<Event>, cfg: Config)
    decreases |events|
  {
    events == [] ||
    (HarmlessEvent(s, events[0]) && HarmlessEvents(Happen(s, events[0], cfg), events[1..], cfg))
  }

  lemma EventKeepsAllLatched(s: State, e: Event, cfg: Config)
    requires AllLatched(s)
    ensures AllLatched(Happen(s, e, cfg)) <==> HarmlessEvent(s, e)
  {
    hide Latched, Happen, Cycle, HarmlessEvent;
    var n := Happen(s, e, cfg);
    HappenKeepsShape(s, e, cfg);
    if HarmlessEvent(s, e) {
      forall c: nat, k: nat | Exists(n, c, k)
        ensures Latched(DriveOf(MotorAt(n, c, k)))
      {
        assert Exists(s, c, k);
        if e.CycleWith? {
          CycleKeepsLatched(s, e.arrivals, cfg, c, k);
          CycleHappens(s, e, cfg);
        } else {
          EventKeepsLatched(s, e, cfg, c, k);
        }
      }
    } else {
      HarmfulEvent(s, e);
      assert Exists(s, e.c, e.k);
      EventKeepsLatched(s, e, cfg, e.c, e.k);
    }
  }

  lemma HarmfulEvent(s: State, e: Event)
    requires !HarmlessEvent(s, e)
    ensures (e.ForceFault? || Restarts(e)) && Exists(s, e.c, e.k)
  {
  }

  /** Over every run of the robot, FAULT has its cause and every state but FAULT and STOPPING is
      clean, in every motor and at every moment, exactly when every event is harmless. */
  lemma {:induction false} RobotStaysLatched(s: State, events: seq<Event>, cfg: Config)
    requires AllLatched(s)
    ensures AlwaysLatched(s, events, cfg) <==> HarmlessEvents(s, events, cfg)
    decreases |events|
  {
    hide AllLatched, Happen, HarmlessEvent;
    if events == [] {
    } else {
      EventKeepsAllLatched(s, events[0], cfg);
      if HarmlessEvent(s, events[0]) {
        RobotStaysLatched(Happen(s, events[0], cfg), events[1..], cfg);
      }
    }
  }

  // ---- FAULT without RESET ----

  /** No request of the command is RESET. */
  predicate AsksNoReset(cmd: Command) {
    forall i, k :: 0 <= i < MAX_CHAINS && 0 <= k < MAX_MOTORS ==>
      !cmd.chains[i].motors[k].driveReq.Reset?
  }

  predicate MailboxHasNoReset(s: State) {
    && (s.pending.Some? ==> AsksNoReset(s.pending.value))
    && (s.active.Some? ==> AsksNoReset(s.active.value))
  }

  predicate ArrivalsHaveNoReset(e: Event) {
    e.CycleWith? ==> forall a :: a in e.arrivals ==> AsksNoReset(a)
  }

  /** In FAULT, unless the slave has started again since it was last counted. */
  predicate FaultSince(m: Motor, reboots: nat) {
    m.reboots >= reboots && (m.reboots == reboots ==> m.driveState.Fault?)
  }

  lemma CycleKeepsFault(s: State, arrivals: seq<Command>, cfg: Config, c: nat, k: nat, reboots: nat)
    requires Exists(s, c, k) && FaultSince(MotorAt(s, c, k), reboots)
    requires MailboxHasNoReset(Swap(ReadHost(s, arrivals), cfg))
    ensures Exists(Cycle(s, arrivals, cfg), c, k)
    ensures FaultSince(MotorAt(Cycle(s, arrivals, cfg), c, k), reboots)
  {
    hide PollMotor, ApplyRequest, Cycle, Swap;
    var P := (m: Motor) => FaultSince(m, reboots);
    var R := (r: CmdMotor) => !r.driveReq.Reset?;
    forall m: Motor, r: CmdMotor, q: u16 | P(m) && R(r)
      ensures P(ApplyRequest(m, r, q))
    {
      RequestIsStep(m, r, q);
      RequestKeepsCounts(m, r, q);
    }
    forall m: Motor | P(m)
      ensures P(PollMotor(m, cfg))
    {
      PollIsStep(m, cfg);
      PollKeepsCounts(m, cfg);
    }
    CycleKeeps(P, R, s, arrivals, cfg, c, k);
  }

  lemma SwapKeepsNoReset(s: State, e: Event, cfg: Config)
    requires MailboxHasNoReset(s) && ArrivalsHaveNoReset(e)
    ensures MailboxHasNoReset(Happen(s, e, cfg))
    ensures e.CycleWith? ==> MailboxHasNoReset(Swap(ReadHost(s, e.arrivals), cfg))
  {
    hide AsksNoReset, CarriesReset, AnyArmed, ApplyChains, PollMotor;
  }

  /** With no RESET in the mailbox and none arriving, a motor in FAULT stays in FAULT until its
      slave starts again. */
  lemma {:induction false} FaultStays(
    s: State, events: seq<Event>, cfg: Config, c: nat, k: nat, reboots: nat)
    requires MailboxHasNoReset(s) && forall e :: e in events ==> ArrivalsHaveNoReset(e)
    requires Exists(s, c, k) && FaultSince(MotorAt(s, c, k), reboots)
    ensures var t := Evolve(s, events, cfg);
      MailboxHasNoReset(t) && Exists(t, c, k) && FaultSince(MotorAt(t, c, k), reboots)
    decreases |events|
  {
    hide Happen, Cycle, MailboxHasNoReset, ArrivalsHaveNoReset, FaultSince;
    if events == [] {
    } else {
      var e := events[0];
      assert ArrivalsHaveNoReset(e);
      SwapKeepsNoReset(s, e, cfg);
      if e.CycleWith? {
        CycleKeepsFault(s, e.arrivals, cfg, c, k, reboots);
        CycleHappens(s, e, cfg);
      } else {
        EventKeepsFault(s, e, cfg, c, k, reboots);
      }
      FaultStays(Happen(s, e, cfg), events[1..], cfg, c, k, reboots);
    }
  }

  lemma EventKeepsFault(s: State, e: Event, cfg: Config, c: nat, k: nat, reboots: nat)
    requires !e.CycleWith? && Exists(s, c, k) && FaultSince(MotorAt(s, c, k), reboots)
    ensures Exists(Happen(s, e, cfg), c, k)
    ensures FaultSince(MotorAt(Happen(s, e, cfg), c, k), reboots)
  {
    EventChangesOne(s, e, cfg, c, k);
    hide Happen;
  }

  /** Requests and polls leave the counts alone. */
  lemma RequestKeepsCounts(m: Motor, r: CmdMotor, q: u16)
    ensures ApplyRequest(m, r, q).reboots == m.reboots
    ensures ApplyRequest(m, r, q).spurious == m.spurious
  {
    hide OnRequest;
  }

  lemma PollKeepsCounts(m: Motor, cfg: Config)
    ensures PollMotor(m, cfg).reboots == m.reboots && PollMotor(m, cfg).spurious == m.spurious
  {
    hide OnTick, OnFault, Inputs;
  }

  // ---- A ramp that never ends ----

  /** Ramping, or about to, with no time on the ramp's clock and a drive that answers. */
  predicate Ramping(m: Motor) {
    (m.driveState.Enabled? || (m.driveState.Stopping? && m.stateMs == 0)) && m.driveAnswers
  }

  lemma StopKeepsRamping(m: Motor, r: CmdMotor, q: u16)
    requires Ramping(m) && r.driveReq.Stop? && !r.valid
    ensures Ramping(ApplyRequest(m, r, q)) && ApplyRequest(m, r, q).driveState.Stopping?
  {
  }

  lemma PollKeepsRamping(m: Motor, cfg: Config)
    requires Ramping(m) && m.driveState.Stopping? && cfg.CycleMs() == 0 && cfg.timing.stopRampMs > 0
    ensures Ramping(PollMotor(m, cfg)) && PollMotor(m, cfg).driveState.Stopping?
  {
  }

  lemma LostCarriesRamping(gate: bool)
    ensures Carries(m => Ramping(m), _ => true, true, gate)
    ensures Carries(m => Ramping(m) && m.driveState.Stopping?, _ => true, true, gate)
  {
    hide Ramping, ApplyRequest;
    forall m: Motor, r: CmdMotor, q: u16 | Ramping(m)
      ensures Ramping(ApplyRequest(m, Forwarded(r, m.driveState, true, gate), q))
      ensures ApplyRequest(m, Forwarded(r, m.driveState, true, gate), q).driveState.Stopping?
    {
      StopKeepsRamping(m, Forwarded(r, m.driveState, true, gate), q);
    }
  }

  /** The trip starts the ramp of a covered motor. */
  lemma TripStartsRamp(last: State, cfg: Config, c: nat, k: nat)
    requires cfg.CycleMs() == 0 && cfg.timing.stopRampMs > 0
    requires Exists(last, c, k) && Ramping(MotorAt(last, c, k))
    requires Swap(ReadHost(last, []), cfg).hostLost && CoveredIn(Swap(ReadHost(last, []), cfg), c, k)
    ensures Exists(Cycle(last, [], cfg), c, k)
    ensures var m := MotorAt(Cycle(last, [], cfg), c, k); Ramping(m) && m.driveState.Stopping?
  {
    hide ApplyChains, PollMotor, Ramping, Covered, AnyArmed, CarriesReset, Carries;
    HappenKeepsShape(last, CycleWith([]), cfg);
    var s1 := Swap(ReadHost(last, []), cfg);
    var cmd, n, gate := s1.active.value, Min(s1.active.value.nChains, MAX_CHAINS), AnyMismatch(s1.chains);
    LostCarriesRamping(gate);
    ApplyChainsCarries(m => Ramping(m), _ => true, s1.chains, cmd, n, true, gate, s1.cmdSeqActive, c, k);
    LostRequestsStop(s1.chains, cmd, n, gate, s1.cmdSeqActive, c, k);
    var m := ApplyChains(s1.chains, cmd, n, true, gate, s1.cmdSeqActive)[c].motors[k];
    RampingAndStopped(m);
    PollKeepsRamping(m, cfg);
  }

  lemma RampingAndStopped(m: Motor)
    requires Ramping(m) && Rundown(m, 0)
    ensures m.driveState.Stopping?
  {
  }

  lemma LostCycleKeepsRamping(s: State, arrivals: seq<Command>, cfg: Config, c: nat, k: nat)
    requires cfg.CycleMs() == 0 && cfg.timing.stopRampMs > 0 && Exists(s, c, k)
    requires Ramping(MotorAt(s, c, k)) && MotorAt(s, c, k).driveState.Stopping?
    requires Swap(ReadHost(s, arrivals), cfg).hostLost
    ensures Exists(Cycle(s, arrivals, cfg), c, k)
    ensures var m := MotorAt(Cycle(s, arrivals, cfg), c, k); Ramping(m) && m.driveState.Stopping?
  {
    hide PollMotor, Ramping, Cycle, Swap, ReadHost, Carries;
    var P := (m: Motor) => Ramping(m) && m.driveState.Stopping?;
    LostCarriesRamping(AnyMismatch(Swap(ReadHost(s, arrivals), cfg).chains));
    forall m: Motor | P(m)
      ensures P(PollMotor(m, cfg))
    {
      PollKeepsRamping(m, cfg);
    }
    CycleCarries(P, P, _ => true, s, arrivals, cfg, c, k);
  }

  lemma {:induction false} StillRamping(s: State, events: seq<Event>, cfg: Config, c: nat, k: nat)
    requires cfg.CycleMs() == 0 && cfg.timing.stopRampMs > 0 && Exists(s, c, k)
    requires Ramping(MotorAt(s, c, k)) && MotorAt(s, c, k).driveState.Stopping?
    requires s.hostLost && s.pending.None? && ResetFree(events) && forall e :: e in events ==> e.CycleWith?
    ensures Exists(Evolve(s, events, cfg), c, k)
    ensures MotorAt(Evolve(s, events, cfg), c, k).driveState.Stopping?
    decreases |events|
  {
    hide Happen, Cycle, BringsNoReset, Ramping, Swap;
    if events == [] {
    } else {
      var e := events[0];
      assert e in events;
      LostStays(s, e, cfg);
      LostCycleKeepsRamping(s, e.arrivals, cfg, c, k);
      CycleHappens(s, e, cfg);
      StillRamping(Happen(s, e, cfg), events[1..], cfg, c, k);
    }
  }

  /** The dead-man needs a cycle of at least a millisecond. Below that the ramp's clock stands still:
      the host trips, the covered motor starts to ramp, and however many cycles follow it is still
      ramping, while its drive answers and no RESET comes. */
  lemma SubMillisecondRampNeverEnds(last: State, after: seq<Event>, cfg: Config, c: nat, k: nat)
    requires cfg.CycleMs() == 0 && cfg.timing.stopRampMs > 0
    requires last.pending.None? && CoveredIn(last, c, k) && Exists(last, c, k)
    requires MotorAt(last, c, k).driveState.Enabled? && MotorAt(last, c, k).driveAnswers
    requires cfg.timing.hostLostCycles <= last.cyclesSinceFresh + 1 < U32
    requires ResetFree(after) && forall e :: e in after ==> e.CycleWith?
    ensures var trip := Happen(last, CycleWith([]), cfg);
      && trip.hostLost
      && var t := Evolve(trip, after, cfg);
        Exists(t, c, k) && MotorAt(t, c, k).driveState.Stopping?
  {
    hide Happen, Cycle, CoveredIn, AnyArmed, Swap, Evolve, ResetFree, Ramping;
    ArmedSomewhere(last, c, k);
    TripCovers(last, cfg, c, k);
    EnabledIsRamping(MotorAt(last, c, k));
    TripStartsRamp(last, cfg, c, k);
    CycleHappens(last, CycleWith([]), cfg);
    CyclePending(last, [], cfg);
    CycleLost(last, [], cfg);
    StillRamping(Happen(last, CycleWith([]), cfg), after, cfg, c, k);
  }

  lemma EnabledIsRamping(m: Motor)
    requires m.driveState.Enabled? && m.driveAnswers
    ensures Ramping(m)
  {
  }

  lemma ArmedSomewhere(s: State, c: nat, k: nat)
    requires Exists(s, c, k) && IsArmed(MotorAt(s, c, k).driveState)
    ensures AnyArmed(s.chains)
  {
  }

  lemma CycleLost(s: State, arrivals: seq<Command>, cfg: Config)
    ensures Cycle(s, arrivals, cfg).hostLost == Swap(ReadHost(s, arrivals), cfg).hostLost
  {
    hide ApplyChains, PollMotor, AnyArmed, CarriesReset;
  }
}
