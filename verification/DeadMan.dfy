/** Host death in closed loop: silence trips the dead-man, the dead-man stops every motor it
    covers, and nothing re-arms until a fresh command carries RESET. */
module DeadMan {
  import opened Wrappers
  import opened Framing
  import opened Telemetry
  import opened DriveSm
  import opened Master

  predicate Exists(s: State, c: nat, k: nat) {
    c < |s.chains| && k < |s.chains[c].motors|
  }

  function MotorAt(s: State, c: nat, k: nat): Motor
    requires Exists(s, c, k)
  {
    s.chains[c].motors[k]
  }

  predicate SameShape(a: seq<Chain>, b: seq<Chain>) {
    && |a| == |b|
    && forall c :: 0 <= c < |a| ==> a[c].id == b[c].id && |a[c].motors| == |b[c].motors|
  }

  // ---- Runs keep the robot's shape ----

  lemma {:induction false} ApplyChainsKeepsShape(
    chains: seq<Chain>, c: Command, n: nat, lost: bool, gate: bool, q: u16)
    requires n <= MAX_CHAINS
    ensures SameShape(chains, ApplyChains(chains, c, n, lost, gate, q))
    ensures forall i :: 0 <= i < |chains| ==>
      && ApplyChains(chains, c, n, lost, gate, q)[i].mismatch == chains[i].mismatch
      && ApplyChains(chains, c, n, lost, gate, q)[i].dropped == chains[i].dropped
  {
    if n == 0 {
    } else {
      ApplyChainsKeepsShape(chains, c, n - 1, lost, gate, q);
    }
  }

  lemma HappenKeepsShape(s: State, e: Event, cfg: Config)
    ensures SameShape(s.chains, Happen(s, e, cfg).chains)
  {
    hide ApplyChains, PollMotor;
    if e.CycleWith? {
      var s1 := Swap(ReadHost(s, e.arrivals), cfg);
      if s1.active.Some? {
        ApplyChainsKeepsShape(s1.chains, s1.active.value, Min(s1.active.value.nChains, MAX_CHAINS),
                              s1.hostLost, AnyMismatch(s1.chains), s1.cmdSeqActive);
      }
    }
  }

  /** Nor does a cycle touch a chain's link. */
  lemma CycleKeepsLinks(s: State, arrivals: seq<Command>, cfg: Config, c: nat)
    requires c < |s.chains|
    ensures var t := Cycle(s, arrivals, cfg);
      |t.chains| == |s.chains| && t.chains[c].id == s.chains[c].id &&
      t.chains[c].mismatch == s.chains[c].mismatch && t.chains[c].dropped == s.chains[c].dropped
  {
    hide ApplyChains, PollMotor, AnyArmed, CarriesReset;
    var s1 := Swap(ReadHost(s, arrivals), cfg);
    if s1.active.Some? {
      ApplyChainsKeepsShape(s1.chains, s1.active.value, Min(s1.active.value.nChains, MAX_CHAINS),
                            s1.hostLost, AnyMismatch(s1.chains), s1.cmdSeqActive);
    }
  }

  // ---- The ramp of one motor ----

  /** Not armed, or ramping down for at least `ms` milliseconds. */
  predicate Rundown(m: Motor, ms: nat) {
    IsArmed(m.driveState) ==> m.driveState.Stopping? && m.stateMs >= ms
  }

  predicate Sane(cfg: Config) {
    cfg.CycleMs() >= 1 && cfg.timing.stopRampMs + cfg.CycleMs() < U32
  }

  lemma StopStartsRundown(m: Motor, r: CmdMotor, q: u16)
    requires r.driveReq.Stop?
    ensures Rundown(ApplyRequest(m, r, q), 0)
    ensures forall ms: nat :: Rundown(m, ms) ==> Rundown(ApplyRequest(m, r, q), ms)
  {
  }

  lemma PollAdvancesRundown(m: Motor, ms: nat, cfg: Config)
    requires Rundown(m, ms) && Sane(cfg)
    ensures ms >= cfg.timing.stopRampMs ==> !IsArmed(PollMotor(m, cfg).driveState)
    ensures Rundown(PollMotor(m, cfg), ms + cfg.CycleMs())
  {
  }

  // ---- One cycle with the host lost ----

  /** A command chain that reaches motor k of `chain`. */
  predicate Names(r: CmdChain, chain: Chain, k: nat) {
    r.chainId == chain.id && k < SlotCount(r, chain)
  }

  predicate Covered(cmd: Command, chain: Chain, k: nat, n: nat)
    requires n <= MAX_CHAINS
  {
    exists i :: 0 <= i < n && Names(cmd.chains[i], chain, k)
  }

  lemma {:induction false} LostRequestsStop(
    chains: seq<Chain>, cmd: Command, n: nat, gate: bool, q: u16, c: nat, k: nat)
    requires n <= MAX_CHAINS && c < |chains| && k < |chains[c].motors|
    ensures SameShape(chains, ApplyChains(chains, cmd, n, true, gate, q))
    ensures var m := chains[c].motors[k];
      var m' := ApplyChains(chains, cmd, n, true, gate, q)[c].motors[k];
      && (forall ms: nat :: Rundown(m, ms) ==> Rundown(m', ms))
      && (!chains[c].mismatch && Covered(cmd, chains[c], k, n) ==> Rundown(m', 0))
  {
    hide ApplyRequest;
    ApplyChainsKeepsShape(chains, cmd, n, true, gate, q);
    if n == 0 {
    } else {
      LostRequestsStop(chains, cmd, n - 1, gate, q, c, k);
      ApplyChainsKeepsShape(chains, cmd, n - 1, true, gate, q);
      var before := ApplyChains(chains, cmd, n - 1, true, gate, q)[c];
      var r := cmd.chains[n - 1];
      if Names(r, before, k) && !before.mismatch {
        StopStartsRundown(
          before.motors[k], Forwarded(r.motors[k], before.motors[k].driveState, true, gate), q);
      }
      assert Names(r, before, k) == Names(r, chains[c], k);
    }
  }

  /** A cycle that ends with the host lost advances every ramp, and starts one in every motor
      the active command covers on a chain that is not mismatched. */
  lemma LostCycle(s: State, arrivals: seq<Command>, cfg: Config, c: nat, k: nat)
    requires Sane(cfg) && Exists(s, c, k) && Swap(ReadHost(s, arrivals), cfg).hostLost
    ensures Exists(Cycle(s, arrivals, cfg), c, k) && Cycle(s, arrivals, cfg).hostLost
    ensures var m' := MotorAt(Cycle(s, arrivals, cfg), c, k);
      && (forall ms: nat :: Rundown(MotorAt(s, c, k), ms) ==>
        && Rundown(m', ms + cfg.CycleMs())
        && (ms >= cfg.timing.stopRampMs ==> !IsArmed(m'.driveState)))
      && (CoveredIn(Swap(ReadHost(s, arrivals), cfg), c, k) ==> Rundown(m', cfg.CycleMs()))
  {
    hide ApplyChains, PollMotor, Rundown, Covered;
    HappenKeepsShape(s, CycleWith(arrivals), cfg);
    var s1 := Swap(ReadHost(s, arrivals), cfg);
    var s2 := ApplyRequests(s1);
    if s1.active.Some? {
      LostRequestsStop(s1.chains, s1.active.value, Min(s1.active.value.nChains, MAX_CHAINS),
                       AnyMismatch(s1.chains), s1.cmdSeqActive, c, k);
    }
    var m := s2.chains[c].motors[k];
    forall ms: nat | Rundown(m, ms)
      ensures Rundown(PollMotor(m, cfg), ms + cfg.CycleMs())
      ensures ms >= cfg.timing.stopRampMs ==> !IsArmed(PollMotor(m, cfg).driveState)
    {
      PollAdvancesRundown(m, ms, cfg);
    }
  }

  /** The active command reaches the motor, and its chain passes the version gate. */
  predicate CoveredIn(s: State, c: nat, k: nat) {
    && s.active.Some? && c < |s.chains| && !s.chains[c].mismatch
    && Covered(s.active.value, s.chains[c], k, Min(s.active.value.nChains, MAX_CHAINS))
  }

  // ---- Runs ----

  function Cycles(events: seq<Event>): nat {
    if events == [] then 0 else (if events[0].CycleWith? then 1 else 0) + Cycles(events[1..])
  }

  /** The command an event puts in the mailbox, if any, does not carry RESET. */
  predicate BringsNoReset(e: Event) {
    e.CycleWith? && e.arrivals != [] ==> !CarriesReset(e.arrivals[|e.arrivals| - 1])
  }

  predicate ResetFree(events: seq<Event>) {
    forall e :: e in events ==> BringsNoReset(e)
  }

  lemma LostStays(s: State, e: Event, cfg: Config)
    requires s.hostLost && s.pending.None? && BringsNoReset(e)
    ensures Happen(s, e, cfg).hostLost && Happen(s, e, cfg).pending.None?
    ensures e.CycleWith? ==> Swap(ReadHost(s, e.arrivals), cfg).hostLost
  {
    hide ApplyChains, PollMotor, CarriesReset;
  }

  /** An event between cycles is an event at one motor, and at no other. */
  predicate IsAt(e: Event, c: nat, k: nat) {
    !e.CycleWith? && !e.SetDropped? && !e.SetMismatch? && e.c == c && e.k == k
  }

  lemma EventChangesOne(s: State, e: Event, cfg: Config, c: nat, k: nat)
    requires !e.CycleWith? && Exists(s, c, k)
    ensures Exists(Happen(s, e, cfg), c, k)
    ensures var m := MotorAt(s, c, k);
      MotorAt(Happen(s, e, cfg), c, k) == if IsAt(e, c, k) then MotorEvent(m, e) else m
  {
    hide MotorEvent;
  }

  lemma BetweenCyclesKeepsRundown(s: State, e: Event, cfg: Config, c: nat, k: nat, ms: nat)
    requires !e.CycleWith? && Exists(s, c, k) && Rundown(MotorAt(s, c, k), ms)
    ensures Exists(Happen(s, e, cfg), c, k) && Rundown(MotorAt(Happen(s, e, cfg), c, k), ms)
  {
    EventChangesOne(s, e, cfg, c, k);
    hide Happen;
  }

  lemma BetweenCyclesArmsNothing(s: State, e: Event, cfg: Config, c: nat, k: nat)
    requires !e.CycleWith? && Exists(s, c, k) && !IsArmed(MotorAt(s, c, k).driveState)
    ensures Exists(Happen(s, e, cfg), c, k)
    ensures !IsArmed(MotorAt(Happen(s, e, cfg), c, k).driveState)
  {
    EventChangesOne(s, e, cfg, c, k);
    hide Happen;
  }

  /** Whatever arrives short of a RESET, nothing re-arms while the host is lost. */
  lemma {:induction false} NothingRearms(s: State, events: seq<Event>, cfg: Config, c: nat, k: nat)
    requires Sane(cfg) && s.hostLost && s.pending.None? && ResetFree(events)
    requires Exists(s, c, k) && !IsArmed(MotorAt(s, c, k).driveState)
    ensures var t := Evolve(s, events, cfg);
      t.hostLost && Exists(t, c, k) && !IsArmed(MotorAt(t, c, k).driveState)
    decreases |events|
  {
    hide Happen, BringsNoReset, CoveredIn, Cycle;
    if events == [] {
    } else {
      var e := events[0];
      assert BringsNoReset(e);
      LostStays(s, e, cfg);
      if e.CycleWith? {
        LostCycle(s, e.arrivals, cfg, c, k);
        assert Rundown(MotorAt(s, c, k), cfg.timing.stopRampMs);
        CycleHappens(s, e, cfg);
      } else {
        BetweenCyclesArmsNothing(s, e, cfg, c, k);
      }
      NothingRearms(Happen(s, e, cfg), events[1..], cfg, c, k);
    }
  }

  lemma CycleHappens(s: State, e: Event, cfg: Config)
    requires e.CycleWith?
    ensures Happen(s, e, cfg) == Cycle(s, e.arrivals, cfg)
  {
  }

  /** With the host lost, a motor `ms` into its ramp is off, for good, once n more cycles have
      carried the ramp to its end and one more has seen it there. */
  lemma {:induction false} RampEnds(
    s: State, events: seq<Event>, cfg: Config, c: nat, k: nat, ms: nat, n: nat)
    requires Sane(cfg) && s.hostLost && s.pending.None? && ResetFree(events)
    requires Exists(s, c, k) && Rundown(MotorAt(s, c, k), ms)
    requires ms + cfg.CycleMs() * n >= cfg.timing.stopRampMs && Cycles(events) > n
    ensures var t := Evolve(s, events, cfg);
      t.hostLost && Exists(t, c, k) && !IsArmed(MotorAt(t, c, k).driveState)
    decreases |events|
  {
    hide Rundown, Happen, BringsNoReset, CoveredIn, Cycle;
    var e, rest := events[0], events[1..];
    assert BringsNoReset(e);
    LostStays(s, e, cfg);
    if e.CycleWith? {
      LostCycle(s, e.arrivals, cfg, c, k);
      CycleHappens(s, e, cfg);
      if n == 0 {
        NothingRearms(Happen(s, e, cfg), rest, cfg, c, k);
      } else {
        assert cfg.CycleMs() * n == cfg.CycleMs() * (n - 1) + cfg.CycleMs();
        RampEnds(Happen(s, e, cfg), rest, cfg, c, k, ms + cfg.CycleMs(), n - 1);
      }
    } else {
      BetweenCyclesKeepsRundown(s, e, cfg, c, k, ms);
      RampEnds(Happen(s, e, cfg), rest, cfg, c, k, ms, n);
    }
  }

  // ---- The trip ----

  /** No command reaches the mailbox. */
  predicate Silent(events: seq<Event>) {
    forall e :: e in events && e.CycleWith? ==> e.arrivals == []
  }

  lemma {:induction false} SilenceCounts(s: State, events: seq<Event>, cfg: Config)
    requires s.pending.None? && Silent(events) && s.cyclesSinceFresh + Cycles(events) < U32
    ensures var t := Evolve(s, events, cfg);
      && t.pending.None? && t.active == s.active
      && t.cyclesSinceFresh == s.cyclesSinceFresh + Cycles(events)
      && SameShape(s.chains, t.chains)
      && (s.hostLost ==> t.hostLost)
    decreases |events|
  {
    hide ApplyChains, PollMotor;
    if events == [] {
    } else {
      HappenKeepsShape(s, events[0], cfg);
      assert events[0] in events;
      SilentStep(s, events[0], cfg);
      SilenceCounts(Happen(s, events[0], cfg), events[1..], cfg);
    }
  }

  lemma SilentStep(s: State, e: Event, cfg: Config)
    requires s.pending.None? && (e.CycleWith? ==> e.arrivals == [] && s.cyclesSinceFresh + 1 < U32)
    ensures var t := Happen(s, e, cfg);
      && t.pending.None? && t.active == s.active && (s.hostLost ==> t.hostLost)
      && t.cyclesSinceFresh == s.cyclesSinceFresh + (if e.CycleWith? then 1 else 0)
  {
    hide ApplyChains, PollMotor;
  }

  /** The whole dead-man. The last fresh command is `cyclesSinceFresh` cycles old; the host falls
      silent, and when `hostLostCycles` have passed some motor is armed. Then the host is lost in
      that very cycle, and every motor the active command covers on a chain that passes the gate is
      off once ceil(stopRampMs / cycleMs) more cycles have run, and stays off whatever arrives
      short of a RESET. */
  lemma DeadManStops(
    s: State, silence: seq<Event>, after: seq<Event>, cfg: Config, c: nat, k: nat)
    requires Sane(cfg) && s.pending.None? && Silent(silence) && ResetFree(after)
    requires cfg.timing.hostLostCycles <= s.cyclesSinceFresh + Cycles(silence) + 1 < U32
    requires var last := Evolve(s, silence, cfg); AnyArmed(last.chains) && CoveredIn(last, c, k)
    requires Exists(s, c, k)
    requires cfg.CycleMs() * Cycles(after) >= cfg.timing.stopRampMs && Cycles(after) > 0
    ensures var trip := Happen(Evolve(s, silence, cfg), CycleWith([]), cfg);
      && trip.hostLost
      && var t := Evolve(trip, after, cfg);
        t.hostLost && Exists(t, c, k) && !IsArmed(MotorAt(t, c, k).driveState)
  {
    hide *;
    SilenceCounts(s, silence, cfg);
    var last := Evolve(s, silence, cfg);
    ExistsInSameShape(s, last, c, k);
    Trip(last, cfg, c, k);
    var trip := Happen(last, CycleWith([]), cfg);
    var n := Cycles(after) - 1;
    Distribute(cfg.CycleMs(), n);
    RampEnds(trip, after, cfg, c, k, cfg.CycleMs(), n);
  }

  lemma Distribute(d: nat, n: nat)
    ensures d * (n + 1) == d * n + d
  {
  }

  lemma ExistsInSameShape(s: State, t: State, c: nat, k: nat)
    requires SameShape(s.chains, t.chains) && Exists(s, c, k)
    ensures Exists(t, c, k)
  {
  }

  /** The cycle in which the dead-man trips. */
  lemma Trip(last: State, cfg: Config, c: nat, k: nat)
    requires Sane(cfg) && last.pending.None? && AnyArmed(last.chains) && CoveredIn(last, c, k)
    requires cfg.timing.hostLostCycles <= last.cyclesSinceFresh + 1 < U32
    requires Exists(last, c, k)
    ensures var trip := Happen(last, CycleWith([]), cfg);
      && trip.hostLost && trip.pending.None? && Exists(trip, c, k)
      && Rundown(MotorAt(trip, c, k), cfg.CycleMs())
  {
    hide Happen, CoveredIn, Rundown, Cycle, AnyArmed, Swap;
    CycleHappens(last, CycleWith([]), cfg);
    TripCovers(last, cfg, c, k);
    LostCycle(last, [], cfg, c, k);
    CyclePending(last, [], cfg);
  }

  lemma CyclePending(s: State, arrivals: seq<Command>, cfg: Config)
    ensures Cycle(s, arrivals, cfg).pending.None?
  {
    hide ApplyChains, PollMotor;
  }

  lemma TripCovers(s: State, cfg: Config, c: nat, k: nat)
    requires s.pending.None? && AnyArmed(s.chains) && CoveredIn(s, c, k)
    requires cfg.timing.hostLostCycles <= s.cyclesSinceFresh + 1 < U32
    ensures Swap(ReadHost(s, []), cfg).hostLost && CoveredIn(Swap(ReadHost(s, []), cfg), c, k)
  {
    hide AnyArmed, Covered;
  }

  // ---- When the host is lost, and when it is found again ----

  /** The command the cycle's mailbox takes, if there is one. */
  function Taken(s: State, arrivals: seq<Command>): Option<Command> {
    if arrivals == [] then s.pending else Some(arrivals[|arrivals| - 1])
  }

  /** Somewhere in what the command covers it asks RESET. */
  predicate AsksReset(c: Command) {
    exists i, k :: 0 <= i < c.nChains && i < MAX_CHAINS && 0 <= k < c.chains[i].nMotors && k < MAX_MOTORS &&
      c.chains[i].motors[k].driveReq.Reset?
  }

  lemma CarriesResetIs(c: Command)
    ensures CarriesReset(c) <==> AsksReset(c)
  {
  }

  /** One cycle, exactly. Taking a command that asks RESET, it ends with the host heard. Otherwise a host
      lost stays lost; and one heard is lost exactly when some motor was armed, no command was taken,
      and with this cycle the last one taken is as many cycles old as the limit. */
  lemma LostExactly(s: State, arrivals: seq<Command>, cfg: Config)
    requires 0 < cfg.timing.hostLostCycles && s.cyclesSinceFresh + 1 < U32
    ensures var taken := Taken(s, arrivals);
      Cycle(s, arrivals, cfg).hostLost <==>
      if taken.Some? then s.hostLost && !AsksReset(taken.value)
      else s.hostLost || (AnyArmed(s.chains) && s.cyclesSinceFresh + 1 >= cfg.timing.hostLostCycles)
    ensures Cycle(s, arrivals, cfg).cyclesSinceFresh ==
      if Taken(s, arrivals).Some? then 0 else s.cyclesSinceFresh + 1
  {
    hide ApplyChains, PollMotor, AnyArmed, CarriesReset;
    if Taken(s, arrivals).Some? {
      CarriesResetIs(Taken(s, arrivals).value);
    }
  }

  /** Every cycle of the run takes a command. */
  ghost predicate Fed(s: State, events: seq<Event>, cfg: Config)
    decreases |events|
  {
    events == [] ||
    ((events[0].CycleWith? ==> Taken(s, events[0].arrivals).Some?) &&
     Fed(Happen(s, events[0], cfg), events[1..], cfg))
  }

  /** A host heard from in every cycle is never lost. */
  lemma {:induction false} FedIsHeard(s: State, events: seq<Event>, cfg: Config)
    requires 0 < cfg.timing.hostLostCycles && !s.hostLost && Fed(s, events, cfg) && s.cyclesSinceFresh + 1 < U32
    ensures !Evolve(s, events, cfg).hostLost
    decreases |events|
  {
    hide Cycle, AnyArmed, AsksReset;
    if events == [] {
    } else {
      if events[0].CycleWith? {
        LostExactly(s, events[0].arrivals, cfg);
        CycleHappens(s, events[0], cfg);
      }
      FedIsHeard(Happen(s, events[0], cfg), events[1..], cfg);
    }
  }

  /** From a command taken, through any silence the host was heard in: the next silent cycle loses it
      exactly when some motor is armed by then and the limit is reached. */
  lemma LostAfterSilenceExactly(s: State, arrivals: seq<Command>, silence: seq<Event>, cfg: Config)
    requires 0 < cfg.timing.hostLostCycles && Taken(s, arrivals).Some? && s.cyclesSinceFresh + 1 < U32
    requires Silent(silence) && Cycles(silence) + 1 < U32
    requires !Evolve(Happen(s, CycleWith(arrivals), cfg), silence, cfg).hostLost
    ensures var last := Evolve(Happen(s, CycleWith(arrivals), cfg), silence, cfg);
      Happen(last, CycleWith([]), cfg).hostLost <==>
      AnyArmed(last.chains) && Cycles(silence) + 1 >= cfg.timing.hostLostCycles
  {
    hide Cycle, Evolve, AnyArmed, AsksReset, Cycles, Silent;
    var begun := Happen(s, CycleWith(arrivals), cfg);
    CycleHappens(s, CycleWith(arrivals), cfg);
    LostExactly(s, arrivals, cfg);
    CyclePending(s, arrivals, cfg);
    SilenceCounts(begun, silence, cfg);
    var last := Evolve(begun, silence, cfg);
    LostExactly(last, [], cfg);
    CycleHappens(last, CycleWith([]), cfg);
  }

  /** At the firmware's timing and the master's 5 ms cycle, that is 60 cycles after the trip. */
  lemma FirmwareStopsInSixtyCycles(events: seq<Event>)
    ensures var cfg := Config(FIRMWARE_TIMING, 5000);
      Sane(cfg) && (Cycles(events) >= 60 <==> cfg.CycleMs() * Cycles(events) >= cfg.timing.stopRampMs)
  {
    hide Cycles;
  }
}
