/** What a command does to the motors it covers, in the cycle that acts on it. */
module Requests {
  import opened Framing
  import opened Telemetry
  import opened DriveSm
  import opened Master
  import opened DeadMan
  import opened Latching

  /** A request satisfying R, as forwarded, takes a motor from P to Q, which is part of P. */
  ghost predicate Takes(P: Motor -> bool, Q: Motor -> bool, R: CmdMotor -> bool, lost: bool, gate: bool) {
    && (forall m: Motor :: Q(m) ==> P(m))
    && (forall m: Motor, r: CmdMotor, q: u16 :: P(m) && R(r) ==>
      Q(ApplyRequest(m, Forwarded(r, m.driveState, lost, gate), q)))
  }

  /** The same for the sequence number the command goes by. */
  ghost predicate TakesAs(
    P: Motor -> bool, Q: Motor -> bool, R: CmdMotor -> bool, lost: bool, gate: bool, q: u16)
  {
    && (forall m: Motor :: Q(m) ==> P(m))
    && (forall m: Motor, r: CmdMotor :: P(m) && R(r) ==>
      Q(ApplyRequest(m, Forwarded(r, m.driveState, lost, gate), q)))
  }

  lemma {:induction false} ApplyChainsTakes(
    P: Motor -> bool, Q: Motor -> bool, R: CmdMotor -> bool, chains: seq<Chain>, cmd: Command, n: nat,
    lost: bool, gate: bool, q: u16, c: nat, k: nat)
    requires n <= MAX_CHAINS && c < |chains| && k < |chains[c].motors| && !chains[c].mismatch
    requires TakesAs(P, Q, R, lost, gate, q) && P(chains[c].motors[k])
    requires forall i :: 0 <= i < n && Names(cmd.chains[i], chains[c], k) ==> R(cmd.chains[i].motors[k])
    ensures SameShape(chains, ApplyChains(chains, cmd, n, lost, gate, q))
    ensures var m := ApplyChains(chains, cmd, n, lost, gate, q)[c].motors[k];
      P(m) && (Covered(cmd, chains[c], k, n) ==> Q(m))
  {
    hide ApplyRequest, Forwarded;
    ApplyChainsKeepsShape(chains, cmd, n, lost, gate, q);
    if n == 0 {
    } else {
      ApplyChainsTakes(P, Q, R, chains, cmd, n - 1, lost, gate, q, c, k);
      ApplyChainsKeepsShape(chains, cmd, n - 1, lost, gate, q);
      var before := ApplyChains(chains, cmd, n - 1, lost, gate, q)[c];
      assert Names(cmd.chains[n - 1], before, k) == Names(cmd.chains[n - 1], chains[c], k);
    }
  }

  /** A cycle whose command covers the motor, and asks only R of it, takes it from P, by way of Q, to
      where the poll leads. */
  lemma CoveredCycleAs(
    P: Motor -> bool, Q: Motor -> bool, T: Motor -> bool, R: CmdMotor -> bool, s: State,
    arrivals: seq<Command>, cfg: Config, c: nat, k: nat)
    requires Exists(s, c, k) && P(MotorAt(s, c, k))
    requires var s1 := Swap(ReadHost(s, arrivals), cfg);
      && CoveredIn(s1, c, k) && Asked(R, s1, c, k)
      && TakesAs(P, Q, R, s1.hostLost, AnyMismatch(s1.chains), s1.cmdSeqActive)
    requires forall m: Motor :: Q(m) ==> T(PollMotor(m, cfg))
    ensures Exists(Cycle(s, arrivals, cfg), c, k) && T(MotorAt(Cycle(s, arrivals, cfg), c, k))
  {
    hide ApplyChains, PollMotor, ApplyRequest, Forwarded, AnyArmed, CarriesReset, TakesAs, Covered;
    HappenKeepsShape(s, CycleWith(arrivals), cfg);
    var s1 := Swap(ReadHost(s, arrivals), cfg);
    var cmd := s1.active.value;
    ApplyChainsTakes(P, Q, R, s1.chains, cmd, Min(cmd.nChains, MAX_CHAINS), s1.hostLost,
                     AnyMismatch(s1.chains), s1.cmdSeqActive, c, k);
  }

  lemma CoveredCycle(
    P: Motor -> bool, Q: Motor -> bool, T: Motor -> bool, R: CmdMotor -> bool, s: State,
    arrivals: seq<Command>, cfg: Config, c: nat, k: nat)
    requires Exists(s, c, k) && P(MotorAt(s, c, k))
    requires var s1 := Swap(ReadHost(s, arrivals), cfg);
      && CoveredIn(s1, c, k) && Asked(R, s1, c, k)
      && Takes(P, Q, R, s1.hostLost, AnyMismatch(s1.chains))
    requires forall m: Motor :: Q(m) ==> T(PollMotor(m, cfg))
    ensures Exists(Cycle(s, arrivals, cfg), c, k) && T(MotorAt(Cycle(s, arrivals, cfg), c, k))
  {
    hide PollMotor, ApplyRequest, Forwarded, Swap, ReadHost, Asked, CoveredIn;
    CoveredCycleAs(P, Q, T, R, s, arrivals, cfg, c, k);
  }

  // ---- DISABLE and STOP ----

  predicate Off(m: Motor) {
    !IsArmed(m.driveState)
  }

  lemma UnarmedPoll(m: Motor, cfg: Config)
    requires Off(m)
    ensures Off(PollMotor(m, cfg))
  {
    PollIsStep(m, cfg);
    hide PollMotor;
  }

  lemma DisableTakes(gate: bool)
    ensures Takes(m => true, m => Off(m), (r: CmdMotor) => r.driveReq.Disable?, false, gate)
  {
    hide ApplyRequest;
    forall m: Motor, r: CmdMotor, q: u16 | r.driveReq.Disable?
      ensures Off(ApplyRequest(m, Forwarded(r, m.driveState, false, gate), q))
    {
      RequestIsStep(m, Forwarded(r, m.driveState, false, gate), q);
    }
  }

  /** With the host heard, a motor that the command acted on covers with DISABLE is not armed after the
      cycle, whatever it was doing. */
  lemma DisableCycleDisarms(s: State, arrivals: seq<Command>, cfg: Config, c: nat, k: nat)
    requires Exists(s, c, k)
    requires var s1 := Swap(ReadHost(s, arrivals), cfg);
      !s1.hostLost && CoveredIn(s1, c, k) && Asked((r: CmdMotor) => r.driveReq.Disable?, s1, c, k)
    ensures Exists(Cycle(s, arrivals, cfg), c, k)
    ensures Off(MotorAt(Cycle(s, arrivals, cfg), c, k))
  {
    hide Cycle, PollMotor, Swap, ReadHost, Takes, CoveredIn, Asked;
    DisableTakes(AnyMismatch(Swap(ReadHost(s, arrivals), cfg).chains));
    forall m: Motor | Off(m)
      ensures Off(PollMotor(m, cfg))
    {
      UnarmedPoll(m, cfg);
    }
    CoveredCycle(m => true, m => Off(m), m => Off(m),
                 (r: CmdMotor) => r.driveReq.Disable?, s, arrivals, cfg, c, k);
  }

  /** Armed only in a ramp. */
  predicate AtMostRamping(m: Motor) {
    IsArmed(m.driveState) ==> m.driveState.Stopping?
  }

  lemma StopTakes(lost: bool, gate: bool)
    ensures Takes(m => true, m => AtMostRamping(m), (r: CmdMotor) => lost || r.driveReq.Stop?, lost, gate)
  {
    hide ApplyRequest;
    forall m: Motor, r: CmdMotor, q: u16 | lost || r.driveReq.Stop?
      ensures AtMostRamping(ApplyRequest(m, Forwarded(r, m.driveState, lost, gate), q))
    {
      RequestIsStep(m, Forwarded(r, m.driveState, lost, gate), q);
    }
  }

  /** A motor covered with STOP, or covered at all while the host is lost, is at most ramping after the
      cycle. */
  lemma StopCycleRamps(s: State, arrivals: seq<Command>, cfg: Config, c: nat, k: nat)
    requires Exists(s, c, k)
    requires var s1 := Swap(ReadHost(s, arrivals), cfg);
      && CoveredIn(s1, c, k)
      && (s1.hostLost || Asked((r: CmdMotor) => r.driveReq.Stop?, s1, c, k))
    ensures Exists(Cycle(s, arrivals, cfg), c, k) && AtMostRamping(MotorAt(Cycle(s, arrivals, cfg), c, k))
  {
    hide Cycle, PollMotor, Swap, ReadHost, Takes, CoveredIn, AtMostRamping;
    var s1 := Swap(ReadHost(s, arrivals), cfg);
    StopTakes(s1.hostLost, AnyMismatch(s1.chains));
    forall m: Motor | AtMostRamping(m)
      ensures AtMostRamping(PollMotor(m, cfg))
    {
      RampPoll(m, cfg);
    }
    CoveredCycle(m => true, m => AtMostRamping(m), m => AtMostRamping(m),
                 (r: CmdMotor) => s1.hostLost || r.driveReq.Stop?, s, arrivals, cfg, c, k);
  }

  lemma RampPoll(m: Motor, cfg: Config)
    requires AtMostRamping(m)
    ensures AtMostRamping(PollMotor(m, cfg))
  {
    PollIsStep(m, cfg);
    hide PollMotor;
  }

  // ---- ENABLE ----

  /** While any slave mismatches, no command arms anything. */
  lemma MismatchArmsNothing(m: Motor, r: CmdMotor, q: u16, lost: bool)
    requires Off(m)
    ensures Off(ApplyRequest(m, Forwarded(r, m.driveState, lost, true), q))
  {
    RequestIsStep(m, Forwarded(r, m.driveState, lost, true), q);
    hide ApplyRequest;
  }

  lemma MismatchedCycleArmsNothing(s: State, arrivals: seq<Command>, cfg: Config, c: nat, k: nat)
    requires Exists(s, c, k) && Off(MotorAt(s, c, k)) && AnyMismatch(s.chains)
    ensures Exists(Cycle(s, arrivals, cfg), c, k) && Off(MotorAt(Cycle(s, arrivals, cfg), c, k))
  {
    hide Cycle, PollMotor, ApplyRequest, Forwarded, AnyArmed, CarriesReset;
    var s1 := Swap(ReadHost(s, arrivals), cfg);
    forall m: Motor, r: CmdMotor, q: u16 | Off(m)
      ensures Off(ApplyRequest(m, Forwarded(r, m.driveState, s1.hostLost, true), q))
    {
      MismatchArmsNothing(m, r, q, s1.hostLost);
    }
    forall m: Motor | Off(m)
      ensures Off(PollMotor(m, cfg))
    {
      UnarmedPoll(m, cfg);
    }
    CycleCarries(m => Off(m), m => Off(m), _ => true, s, arrivals, cfg, c, k);
  }

  /** And an armed motor is not touched by it: the gate passes its ENABLE on. */
  lemma GatePassesArmed(m: Motor, r: CmdMotor, lost: bool, gate: bool)
    requires IsArmed(m.driveState) || !r.driveReq.Enable? || !gate
    ensures !lost ==> Forwarded(r, m.driveState, lost, gate) == r
  {
  }

  // ---- RESET ----

  /** Its drive answers, and has no fault of its own left to report. */
  predicate Clearable(m: Motor) {
    m.driveAnswers && m.motorFault == 0
  }

  predicate Faulted(m: Motor) {
    m.driveState.Fault? && Clearable(m)
  }

  /** CLEARING for so long. */
  predicate ClearingFor(m: Motor, ms: nat) {
    m.driveState.Clearing? && m.driveFault.NoFault? && m.stateMs == ms && Clearable(m)
  }

  predicate Recovered(m: Motor) {
    m.driveState.Disabled? && m.driveFault.NoFault?
  }

  lemma ResetTakes(gate: bool, ms: nat)
    ensures Takes(m => Faulted(m) || ClearingFor(m, 0), m => ClearingFor(m, 0),
                  (r: CmdMotor) => r.driveReq.Reset?, false, gate)
    ensures Takes(m => ClearingFor(m, ms), m => ClearingFor(m, ms),
                  (r: CmdMotor) => r.driveReq.Reset?, false, gate)
  {
  }

  lemma ClearingPoll(m: Motor, cfg: Config, ms: nat)
    requires ClearingFor(m, ms) && ms + cfg.CycleMs() < U32
    ensures ms < cfg.CycleMs() ==> ClearingFor(PollMotor(m, cfg), ms + cfg.CycleMs())
    ensures ms >= cfg.CycleMs() ==> Recovered(PollMotor(m, cfg))
  {
  }

  /** What the command acted on asks of the motor, host heard, is RESET. */
  ghost predicate AskedReset(s: State, c: nat, k: nat)
    requires c < |s.chains|
  {
    !s.hostLost && CoveredIn(s, c, k) && Asked((r: CmdMotor) => r.driveReq.Reset?, s, c, k)
  }

  lemma ResetCycleStarts(s: State, arrivals: seq<Command>, cfg: Config, c: nat, k: nat)
    requires Exists(s, c, k) && Faulted(MotorAt(s, c, k)) && 0 < cfg.CycleMs() < U32
    requires AskedReset(Swap(ReadHost(s, arrivals), cfg), c, k)
    ensures Exists(Cycle(s, arrivals, cfg), c, k)
    ensures ClearingFor(MotorAt(Cycle(s, arrivals, cfg), c, k), cfg.CycleMs())
  {
    hide Cycle, PollMotor, Swap, ReadHost, Takes, CoveredIn, Asked, ClearingFor, Faulted;
    ResetTakes(AnyMismatch(Swap(ReadHost(s, arrivals), cfg).chains), 0);
    forall m: Motor | ClearingFor(m, 0)
      ensures ClearingFor(PollMotor(m, cfg), cfg.CycleMs())
    {
      ClearingPoll(m, cfg, 0);
    }
    CoveredCycle(m => Faulted(m) || ClearingFor(m, 0), m => ClearingFor(m, 0),
                 m => ClearingFor(m, cfg.CycleMs()), (r: CmdMotor) => r.driveReq.Reset?, s, arrivals, cfg,
                 c, k);
  }

  lemma ResetCycleEnds(s: State, arrivals: seq<Command>, cfg: Config, c: nat, k: nat)
    requires Exists(s, c, k) && ClearingFor(MotorAt(s, c, k), cfg.CycleMs()) && 2 * cfg.CycleMs() < U32
    requires AskedReset(Swap(ReadHost(s, arrivals), cfg), c, k)
    ensures Exists(Cycle(s, arrivals, cfg), c, k) && Recovered(MotorAt(Cycle(s, arrivals, cfg), c, k))
  {
    hide Cycle, PollMotor, Swap, ReadHost, Takes, CoveredIn, Asked, ClearingFor, Recovered;
    var d := cfg.CycleMs();
    ResetTakes(AnyMismatch(Swap(ReadHost(s, arrivals), cfg).chains), d);
    forall m: Motor | ClearingFor(m, d)
      ensures Recovered(PollMotor(m, cfg))
    {
      ClearingPoll(m, cfg, d);
    }
    CoveredCycle(m => ClearingFor(m, d), m => ClearingFor(m, d), m => Recovered(m),
                 (r: CmdMotor) => r.driveReq.Reset?, s, arrivals, cfg, c, k);
  }

  /** A faulted motor whose drive answers and is clean comes back, DISABLED and with its fault forgotten,
      in two cycles that ask RESET of it. */
  lemma ResetRecovers(
    s: State, first: seq<Command>, second: seq<Command>, cfg: Config, c: nat, k: nat)
    requires Exists(s, c, k) && Faulted(MotorAt(s, c, k)) && 0 < cfg.CycleMs() && 2 * cfg.CycleMs() < U32
    requires AskedReset(Swap(ReadHost(s, first), cfg), c, k)
    requires var s1 := Cycle(s, first, cfg);
      Exists(s1, c, k) ==> AskedReset(Swap(ReadHost(s1, second), cfg), c, k)
    ensures var t := Cycle(Cycle(s, first, cfg), second, cfg);
      Exists(t, c, k) && Recovered(MotorAt(t, c, k))
  {
    hide Cycle, Swap, ReadHost, AskedReset, ClearingFor, Faulted, Recovered;
    ResetCycleStarts(s, first, cfg, c, k);
    ResetCycleEnds(Cycle(s, first, cfg), second, cfg, c, k);
  }

  /** Whatever its drive answered, the next cycle settles it: DISABLED if the drive is clean, and back in
      FAULT, with that as the cause, if it is not. */
  lemma ClearingEnds(m: Motor, cfg: Config)
    requires m.driveState.Clearing? && m.driveFault.NoFault? && m.driveAnswers
    requires m.stateMs >= cfg.CycleMs()
    ensures var n := PollMotor(m, cfg);
      && (n.driveState.Disabled? <==> m.motorFault == 0) && (n.driveState.Fault? <==> m.motorFault != 0)
      && n.driveFault == (if m.motorFault == 0 then NoFault else MotorReported)
  {
  }

  // ---- A drive that does not answer ----

  /** How long its drive has not been heard, as far as that is counted. */
  predicate SilentFor(m: Motor, ms: nat) {
    !m.driveAnswers && m.unansweredMs >= Min(ms, AGE_SATURATION_MS)
  }

  lemma RequestKeepsSilence(m: Motor, r: CmdMotor, q: u16, ms: nat)
    ensures SilentFor(ApplyRequest(m, r, q), ms) <==> SilentFor(m, ms)
  {
    hide OnRequest;
  }

  lemma SilencePoll(m: Motor, cfg: Config, ms: nat)
    requires SilentFor(m, ms)
    ensures SilentFor(PollMotor(m, cfg), ms + cfg.CycleMs())
    ensures Min(ms + cfg.CycleMs(), AGE_SATURATION_MS) >= cfg.timing.canFbTimeoutMs ==> Off(PollMotor(m, cfg))
  {
    hide OnTick;
    if Min(ms + cfg.CycleMs(), AGE_SATURATION_MS) >= cfg.timing.canFbTimeoutMs {
      SilenceFaults(m, cfg);
    }
  }

  /** An armed motor is put in FAULT by the poll that finds its drive silent for too long. */
  lemma SilenceFaults(m: Motor, cfg: Config)
    requires !m.driveAnswers
    requires Min(m.unansweredMs + cfg.CycleMs(), AGE_SATURATION_MS) >= cfg.timing.canFbTimeoutMs
    ensures Off(PollMotor(m, cfg))
    ensures var n := PollMotor(m, cfg);
      IsArmed(m.driveState) ==>
        n.driveState.Fault? && n.driveFault == if m.driveFault.NoFault? then CanTimeout else m.driveFault
  {
  }

  lemma SilentCycle(s: State, arrivals: seq<Command>, cfg: Config, c: nat, k: nat, ms: nat)
    requires Exists(s, c, k) && SilentFor(MotorAt(s, c, k), ms)
    ensures Exists(Cycle(s, arrivals, cfg), c, k)
    ensures SilentFor(MotorAt(Cycle(s, arrivals, cfg), c, k), ms + cfg.CycleMs())
    ensures Min(ms + cfg.CycleMs(), AGE_SATURATION_MS) >= cfg.timing.canFbTimeoutMs ==>
      Off(MotorAt(Cycle(s, arrivals, cfg), c, k))
  {
    hide Cycle, PollMotor, ApplyRequest, Forwarded, SilentFor, AnyArmed, CarriesReset;
    var P := (m: Motor) => SilentFor(m, ms);
    var Q := (m: Motor) =>
      && SilentFor(m, ms + cfg.CycleMs())
      && (Min(ms + cfg.CycleMs(), AGE_SATURATION_MS) >= cfg.timing.canFbTimeoutMs ==> Off(m));
    forall m: Motor, r: CmdMotor, q: u16 | P(m)
      ensures P(ApplyRequest(m, r, q))
    {
      RequestKeepsSilence(m, r, q, ms);
    }
    forall m: Motor | P(m)
      ensures Q(PollMotor(m, cfg))
    {
      SilencePoll(m, cfg, ms);
    }
    CycleCarries(P, Q, _ => true, s, arrivals, cfg, c, k);
  }

  /** One cycle after another, each reading what arrived for it. */
  function InTurn(cycles: seq<seq<Command>>): seq<Event> {
    if cycles == [] then [] else [CycleWith(cycles[0])] + InTurn(cycles[1..])
  }

  lemma FirstInTurn(s: State, cycles: seq<seq<Command>>, cfg: Config)
    requires cycles != []
    ensures Evolve(s, InTurn(cycles), cfg) == Evolve(Cycle(s, cycles[0], cfg), InTurn(cycles[1..]), cfg)
    ensures |cycles| == 1 ==> Evolve(s, InTurn(cycles), cfg) == Cycle(s, cycles[0], cfg)
  {
    hide Cycle, Happen;
    CycleHappens(s, CycleWith(cycles[0]), cfg);
    assert InTurn(cycles)[1..] == InTurn(cycles[1..]);
    if |cycles| == 1 {
      assert cycles[1..] == [];
    }
  }

  /** Whatever the host asks, a motor whose drive has not answered for the timeout is not armed. */
  lemma {:induction false} SilentDriveIsOff(
    s: State, cycles: seq<seq<Command>>, cfg: Config, c: nat, k: nat, ms: nat)
    requires Exists(s, c, k) && SilentFor(MotorAt(s, c, k), ms) && cycles != []
    requires ms + cfg.CycleMs() * |cycles| >= cfg.timing.canFbTimeoutMs
    requires cfg.timing.canFbTimeoutMs <= AGE_SATURATION_MS
    ensures var t := Evolve(s, InTurn(cycles), cfg);
      Exists(t, c, k) && Off(MotorAt(t, c, k))
    decreases |cycles|
  {
    hide Happen, Cycle, SilentFor, Evolve, InTurn;
    SilentCycle(s, cycles[0], cfg, c, k, ms);
    FirstInTurn(s, cycles, cfg);
    if |cycles| == 1 {
    } else {
      Distribute(cfg.CycleMs(), |cycles| - 1);
      SilentDriveIsOff(Cycle(s, cycles[0], cfg), cycles[1..], cfg, c, k, ms + cfg.CycleMs());
    }
  }

  // ---- A tuple ----

  /** ENABLE with a tuple. */
  predicate BringsTuple(r: CmdMotor, pos: i16, vel: i16, tauFf: i16) {
    r.driveReq.Enable? && r.valid && r.pos == pos && r.vel == vel && r.tauFf == tauFf
  }

  /** Running, at the tuple, as the command of that number last asked. */
  predicate RunsAt(m: Motor, pos: i16, vel: i16, tauFf: i16, q: u16) {
    && m.driveState.Enabled? && m.driveAnswers && m.haveTuple
    && m.hold == pos && m.pos == pos && m.vel == vel && m.tau == tauFf && m.lastApplied == q
  }

  predicate Ready(m: Motor) {
    m.driveState.Enabled? && m.driveAnswers
  }

  lemma TupleTakes(pos: i16, vel: i16, tauFf: i16, gate: bool, q: u16)
    ensures TakesAs(m => Ready(m), m => RunsAt(m, pos, vel, tauFf, q),
                    (r: CmdMotor) => BringsTuple(r, pos, vel, tauFf), false, gate, q)
  {
  }

  lemma RunningPoll(m: Motor, cfg: Config, pos: i16, vel: i16, tauFf: i16, q: u16)
    requires RunsAt(m, pos, vel, tauFf, q)
    ensures RunsAt(PollMotor(m, cfg), pos, vel, tauFf, q)
  {
  }

  /** With the host heard, an ENABLED motor whose drive answers, and that the command covers with a
      tuple, runs at exactly that tuple after the cycle, and says which command it was. */
  lemma TupleReachesMotor(
    s: State, arrivals: seq<Command>, cfg: Config, c: nat, k: nat, pos: i16, vel: i16, tauFf: i16)
    requires Exists(s, c, k) && Ready(MotorAt(s, c, k))
    requires var s1 := Swap(ReadHost(s, arrivals), cfg);
      && !s1.hostLost && CoveredIn(s1, c, k)
      && Asked((r: CmdMotor) => BringsTuple(r, pos, vel, tauFf), s1, c, k)
    ensures Exists(Cycle(s, arrivals, cfg), c, k)
    ensures RunsAt(MotorAt(Cycle(s, arrivals, cfg), c, k), pos, vel, tauFf,
                    Swap(ReadHost(s, arrivals), cfg).cmdSeqActive)
  {
    hide Cycle, PollMotor, Swap, ReadHost, TakesAs, CoveredIn, RunsAt;
    var s1 := Swap(ReadHost(s, arrivals), cfg);
    var q := s1.cmdSeqActive;
    TupleTakes(pos, vel, tauFf, AnyMismatch(s1.chains), q);
    forall m: Motor | RunsAt(m, pos, vel, tauFf, q)
      ensures RunsAt(PollMotor(m, cfg), pos, vel, tauFf, q)
    {
      RunningPoll(m, cfg, pos, vel, tauFf, q);
    }
    CoveredCycleAs(m => Ready(m), m => RunsAt(m, pos, vel, tauFf, q), m => RunsAt(m, pos, vel, tauFf, q),
                   (r: CmdMotor) => BringsTuple(r, pos, vel, tauFf), s, arrivals, cfg, c, k);
  }

  /** Not yet ENABLED, a motor keeps the tuple's position to come up at. */
  lemma TupleIsKept(m: Motor, r: CmdMotor, q: u16)
    requires (m.driveState.Enabling? || (m.driveState.Disabled? && !m.wound)) && r.driveReq.Enable? && r.valid
    ensures var n := ApplyRequest(m, r, q); n.driveState.Enabling? && n.haveTuple && n.hold == r.pos
  {
  }

  lemma ComesUpAtTuple(m: Motor, cfg: Config)
    requires m.driveState.Enabling? && PollMotor(m, cfg).driveState.Enabled? && m.haveTuple
    ensures PollMotor(m, cfg).shaft == m.hold == PollMotor(m, cfg).hold
  {
  }

  // ---- What moves a motor, and how long a state lasts ----

  /** A poll turns the shaft of a motor with a tuple only, and only to it: one that is ENABLED, or that
      comes up in this poll. Position is what the drive answered. */
  lemma PollMoves(m: Motor, cfg: Config)
    ensures var n := PollMotor(m, cfg);
      var up := m.driveState.Enabling? && n.driveState.Enabled?;
      var polled :=
        m.driveAnswers && (IsArmed(m.driveState) || m.driveState.Disabled? || m.driveState.Clearing?);
      && n.vel == m.vel && n.tau == m.tau
      && n.shaft == (if m.haveTuple && ((m.driveState.Enabled? && m.driveAnswers) || up)
                     then m.hold else m.shaft)
      && n.pos == (if !polled then m.pos else if up then m.shaft else n.shaft)
  {
  }

  /** Not driven, or asked to come up in this very cycle, and standing there. */
  predicate StandsAt(m: Motor, shaft: i16) {
    m.shaft == shaft && (Off(m) || (m.driveState.Enabling? && m.rsMode == 0 && m.stateMs == 0))
  }

  lemma RequestLeavesStanding(m: Motor, r: CmdMotor, q: u16, shaft: i16)
    requires StandsAt(m, shaft)
    ensures StandsAt(ApplyRequest(m, r, q), shaft)
  {
  }

  lemma PollLeavesStanding(m: Motor, cfg: Config, shaft: i16)
    requires StandsAt(m, shaft)
    ensures PollMotor(m, cfg).shaft == shaft
  {
    hide OnFault;
  }

  /** No command moves a motor that is off, in the cycle that acts on it. */
  lemma OffStands(s: State, arrivals: seq<Command>, cfg: Config, c: nat, k: nat)
    requires Exists(s, c, k) && Off(MotorAt(s, c, k))
    ensures Exists(Cycle(s, arrivals, cfg), c, k)
    ensures MotorAt(Cycle(s, arrivals, cfg), c, k).shaft == MotorAt(s, c, k).shaft
  {
    hide Cycle, PollMotor, ApplyRequest, Forwarded, AnyArmed, CarriesReset;
    var shaft := MotorAt(s, c, k).shaft;
    forall m: Motor, r: CmdMotor, q: u16 | StandsAt(m, shaft)
      ensures StandsAt(ApplyRequest(m, r, q), shaft)
    {
      RequestLeavesStanding(m, r, q, shaft);
    }
    forall m: Motor | StandsAt(m, shaft)
      ensures PollMotor(m, cfg).shaft == shaft
    {
      PollLeavesStanding(m, cfg, shaft);
    }
    CycleCarries(m => StandsAt(m, shaft), m => ShaftAt(m, shaft), _ => true, s, arrivals, cfg, c, k);
  }

  predicate ShaftAt(m: Motor, shaft: i16) {
    m.shaft == shaft
  }

  /** How long each passing state lasts at the firmware's timing, in milliseconds. */
  lemma PassingStatesEnd(m: Motor, cfg: Config)
    requires cfg.timing == FIRMWARE_TIMING
    ensures var n := PollMotor(m, cfg);
      && (m.driveState.Enabling? && m.stateMs >= 100 ==> !n.driveState.Enabling?)
      && (m.driveState.Enabling? && m.driveAnswers && m.enableNeverRuns && m.rsMode != 2 ==>
        if m.stateMs < 100 then n.driveState.Enabling?
        else
          && n.driveState.Fault?
          && n.driveFault == if m.driveFault.NoFault? then EnableFailed else m.driveFault)
      && (m.driveState.Enabling? && m.driveAnswers && !m.enableNeverRuns && m.stateMs >= 10 ==>
        n.driveState.Enabled?)
  {
  }

  lemma LeavingStatesEnd(m: Motor, cfg: Config)
    requires cfg.timing == FIRMWARE_TIMING
    ensures var n := PollMotor(m, cfg);
      && (m.driveState.Stopping? && m.driveAnswers ==> (n.driveState.Stopping? <==> m.stateMs < 300))
      && (m.driveState.Clearing? && !m.driveAnswers ==>
        if m.stateMs < 100 then n.driveState.Clearing? else n.driveState.Absent?)
      && (m.driveState.Disabled? && !m.driveAnswers ==>
        (n.driveState.Absent? <==> m.unansweredMs + cfg.CycleMs() >= 100))
      && (m.driveState.Absent? ==> (n.driveState.Disabled? <==> m.driveAnswers))
      && (IsArmed(n.driveState) || n.driveState.Clearing? ==> n.stateMs == (m.stateMs + cfg.CycleMs()) % U32)
  {
  }

  /** A fault the drive itself reported cannot be cleared away; any other can. */
  lemma ReportedFaultsStay(m: Motor, fault: DriveFault)
    ensures Clearable(FaultMotor(m, fault)) <==> Clearable(m) && !fault.MotorReported?
  {
  }
}
