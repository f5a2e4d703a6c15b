/** Three runs in which a motor is armed against what one might expect: by the frames of a session in
    which its slave started again, or a fault was reported of it without a cause; and by a frame older
    than the activation that reports it armed. */
module ArmingRuns {
  import opened Wrappers
  import opened Framing
  import opened Telemetry
  import opened DriveSm
  import opened Master
  import opened DeadMan
  import opened Latching
  import opened Channel
  import opened Rearming
  import opened Requests

  // ---- Cycles that enable ----

  /** The host is heard, no slave mismatches, and the command acted on enables the motor. */
  ghost predicate Enabling(s: State, cmd: Command, x: Slot) {
    && s.active == Some(cmd) && !s.hostLost && !AnyMismatch(s.chains) && There(s, x)
    && AlwaysAt(cmd, x.id, x.k) && CoveredIn(s, x.c, x.k)
  }

  /** One such cycle takes the motor from P, by way of Q, to where the poll leads. */
  lemma EnablingCycle(
    P: Motor -> bool, Q: Motor -> bool, T: Motor -> bool, s: State, arrivals: seq<Command>, cfg: Config,
    cmd: Command, x: Slot)
    requires There(s, x) && P(The(s, x)) && Enabling(Swap(ReadHost(s, arrivals), cfg), cmd, x)
    requires Takes(P, Q, (r: CmdMotor) => r.driveReq.Enable?, false, false)
    requires forall m: Motor :: Q(m) ==> T(PollMotor(m, cfg))
    ensures There(Cycle(s, arrivals, cfg), x) && T(The(Cycle(s, arrivals, cfg), x))
  {
    hide Cycle, PollMotor, ApplyRequest, Forwarded, AnyArmed, CarriesReset, Takes, Covered;
    HappenKeepsShape(s, CycleWith(arrivals), cfg);
    CycleHappens(s, CycleWith(arrivals), cfg);
    CoveredCycle(P, Q, T, (r: CmdMotor) => r.driveReq.Enable?, s, arrivals, cfg, x.c, x.k);
  }

  // ---- What one ENABLE does ----

  /** Answering, free to run, and not wound. */
  predicate Willing(m: Motor) {
    m.driveAnswers && !m.enableNeverRuns && !m.wound
  }

  predicate Discovering(m: Motor) {
    m.driveState.Discovering? && Willing(m)
  }

  predicate Waiting(m: Motor) {
    m.driveState.Disabled? && Willing(m)
  }

  /** ENABLING for so many milliseconds. */
  predicate Starting(m: Motor, ms: nat) {
    m.driveState.Enabling? && m.stateMs == ms && m.rsMode != 2 && Willing(m)
  }

  lemma EnableDiscovering()
    ensures Takes(m => Discovering(m), m => Discovering(m), (r: CmdMotor) => r.driveReq.Enable?, false, false)
  {
  }

  lemma EnableWaiting()
    ensures Takes(m => Waiting(m) || Starting(m, 0), m => Starting(m, 0), (r: CmdMotor) => r.driveReq.Enable?,
                  false, false)
  {
  }

  lemma EnableStarting(ms: nat)
    ensures Takes(m => Starting(m, ms), m => Starting(m, ms), (r: CmdMotor) => r.driveReq.Enable?, false, false)
  {
  }

  lemma PollDiscovering(m: Motor, cfg: Config)
    requires Discovering(m)
    ensures Discovering(PollMotor(m, cfg))
  {
  }

  lemma PollStarting(m: Motor, cfg: Config, ms: nat)
    requires Starting(m, ms) && ms < cfg.timing.enableTimeoutMs && ms + cfg.CycleMs() < U32
    ensures ms < ENABLE_RUN_MS ==> Starting(PollMotor(m, cfg), ms + cfg.CycleMs())
    ensures ms >= ENABLE_RUN_MS ==> PollMotor(m, cfg).driveState.Enabled?
  {
  }

  lemma PollWaiting(m: Motor, cfg: Config)
    requires Waiting(m)
    ensures Waiting(PollMotor(m, cfg))
  {
  }

  // ---- The host's side of such a cycle ----

  /** The host is heard and no slave mismatches. */
  predicate Calm(s: State) {
    !s.hostLost && !AnyMismatch(s.chains)
  }

  /** The command reaches the motor, and asks only ENABLE of it. */
  ghost predicate Arms(cmd: Command, s: State, x: Slot) {
    && There(s, x) && AlwaysAt(cmd, x.id, x.k)
    && Covered(cmd, s.chains[x.c], x.k, Min(cmd.nChains, MAX_CHAINS))
  }

  lemma CycleKeepsCalm(s: State, arrivals: seq<Command>, cfg: Config)
    requires Calm(s) && 0 < cfg.timing.hostLostCycles
    requires arrivals != [] || s.cyclesSinceFresh + 1 < cfg.timing.hostLostCycles
    ensures Calm(Swap(ReadHost(s, arrivals), cfg)) && Calm(Cycle(s, arrivals, cfg))
  {
    hide ApplyChains, PollMotor, AnyArmed, CarriesReset;
    var s1 := Swap(ReadHost(s, arrivals), cfg);
    if s1.active.Some? {
      ApplyChainsKeepsShape(s1.chains, s1.active.value, Min(s1.active.value.nChains, MAX_CHAINS),
                            s1.hostLost, AnyMismatch(s1.chains), s1.cmdSeqActive);
    }
  }

  lemma FreshEnables(s: State, cmd: Command, cfg: Config, x: Slot)
    requires Calm(s) && 0 < cfg.timing.hostLostCycles && Arms(cmd, s, x)
    ensures Enabling(Swap(ReadHost(s, [cmd]), cfg), cmd, x) && Calm(Cycle(s, [cmd], cfg))
  {
    hide Cycle, AnyArmed, CarriesReset, Covered, AlwaysAt;
    CycleKeepsCalm(s, [cmd], cfg);
  }

  lemma ArmsInSameShape(cmd: Command, s: State, t: State, x: Slot)
    requires Arms(cmd, s, x) && SameShape(s.chains, t.chains)
    ensures Arms(cmd, t, x)
  {
    hide AlwaysAt;
    var n := Min(cmd.nChains, MAX_CHAINS);
    assert There(t, x);
    var i :| 0 <= i < n && Names(cmd.chains[i], s.chains[x.c], x.k);
    assert Names(cmd.chains[i], t.chains[x.c], x.k);
  }

  // ---- A slave that starts again ----

  lemma Discovers(s: State, x: Slot, discovering: bool, cfg: Config)
    requires Calm(s) && There(s, x) && Willing(The(s, x))
    ensures var t := Happen(s, Event.SetDiscovering(x.c, x.k, discovering), cfg);
      && Calm(t) && There(t, x) && SameShape(s.chains, t.chains)
      && if discovering then Discovering(The(t, x)) else Waiting(The(t, x))
  {
  }

  lemma DiscoveringCycle(s: State, cmd: Command, cfg: Config, x: Slot)
    requires Calm(s) && 0 < cfg.timing.hostLostCycles && Arms(cmd, s, x) && Discovering(The(s, x))
    ensures var t := Happen(s, CycleWith([cmd]), cfg);
      Calm(t) && There(t, x) && SameShape(s.chains, t.chains) && Discovering(The(t, x))
  {
    hide Cycle, Discovering, Takes, Swap, ReadHost, Covered, AlwaysAt, AnyMismatch, PollMotor, ApplyRequest;
    HappenKeepsShape(s, CycleWith([cmd]), cfg);
    CycleHappens(s, CycleWith([cmd]), cfg);
    FreshEnables(s, cmd, cfg, x);
    EnableDiscovering();
    forall m: Motor | Discovering(m)
      ensures Discovering(PollMotor(m, cfg))
    {
      PollDiscovering(m, cfg);
    }
    EnablingCycle(m => Discovering(m), m => Discovering(m), m => Discovering(m), s, [cmd], cfg, cmd, x);
  }

  /** An ENABLE that reaches a DISABLED motor arms it. */
  lemma ArmingCycle(s: State, arrivals: seq<Command>, cmd: Command, cfg: Config, x: Slot)
    requires There(s, x) && Waiting(The(s, x)) && Enabling(Swap(ReadHost(s, arrivals), cfg), cmd, x)
    requires 0 < cfg.timing.enableTimeoutMs && cfg.CycleMs() < U32
    ensures There(Cycle(s, arrivals, cfg), x) && Starting(The(Cycle(s, arrivals, cfg), x), cfg.CycleMs())
  {
    hide Cycle, Starting, Waiting, Takes, Swap, ReadHost, Enabling, PollMotor, ApplyRequest;
    EnableWaiting();
    forall m: Motor | Starting(m, 0)
      ensures Starting(PollMotor(m, cfg), cfg.CycleMs())
    {
      PollStarting(m, cfg, 0);
    }
    EnablingCycle(m => Waiting(m) || Starting(m, 0), m => Starting(m, 0), m => Starting(m, cfg.CycleMs()),
                  s, arrivals, cfg, cmd, x);
  }

  /** The session goes on, and its running requests arm the motor again: the slave of a motor in any
      state starts again and is seen to, in a report of a cycle under one running frame; the next
      one arms it. */
  lemma SlaveResetRearms(s: State, first: Command, second: Command, cfg: Config, x: Slot)
    requires Calm(s) && 0 < cfg.timing.hostLostCycles && 0 < cfg.timing.enableTimeoutMs
    requires cfg.CycleMs() < U32 && Arms(first, s, x) && Arms(second, s, x) && Willing(The(s, x))
    ensures var down := Evolve(s, [Event.SetDiscovering(x.c, x.k, true), CycleWith([first])], cfg);
      && OffIn(down, x) && The(down, x).driveState.Discovering?
      && var up := Evolve(down, [Event.SetDiscovering(x.c, x.k, false), CycleWith([second])], cfg);
        There(up, x) && IsArmed(The(up, x).driveState)
  {
    hide Cycle, Happen, Arms, Calm, Swap, ReadHost, Enabling;
    var s1 := Happen(s, Event.SetDiscovering(x.c, x.k, true), cfg);
    ArmsThere(first, s, x);
    Discovers(s, x, true, cfg);
    ArmsInSameShape(first, s, s1, x);
    DiscoveringCycle(s1, first, cfg, x);
    var down := Happen(s1, CycleWith([first]), cfg);
    TwoEvents(s, Event.SetDiscovering(x.c, x.k, true), CycleWith([first]), cfg);
    var s2 := Happen(down, Event.SetDiscovering(x.c, x.k, false), cfg);
    Discovers(down, x, false, cfg);
    ShapeChain(s, s1, down, s2);
    ArmsInSameShape(second, s, s2, x);
    FreshEnables(s2, second, cfg, x);
    ArmingCycle(s2, [second], second, cfg, x);
    CycleHappens(s2, CycleWith([second]), cfg);
    TwoEvents(down, Event.SetDiscovering(x.c, x.k, false), CycleWith([second]), cfg);
  }

  lemma ArmsThere(cmd: Command, s: State, x: Slot)
    requires Arms(cmd, s, x)
    ensures There(s, x)
  {
  }

  lemma ShapeChain(s: State, s1: State, s2: State, s3: State)
    requires SameShape(s.chains, s1.chains) && SameShape(s1.chains, s2.chains)
    requires SameShape(s2.chains, s3.chains)
    ensures SameShape(s.chains, s3.chains)
  {
  }

  lemma TwoEvents(s: State, a: Event, b: Event, cfg: Config)
    ensures Evolve(s, [a, b], cfg) == Happen(Happen(s, a, cfg), b, cfg)
  {
    hide Happen;
    var t := Happen(s, a, cfg);
    assert [a, b][1..] == [b] && [b][1..] == [];
    assert Evolve(t, [b], cfg) == Evolve(Happen(t, b, cfg), [], cfg);
  }

  // ---- A fault without a cause ----

  /** Ramping down with nothing latched, for so many milliseconds. */
  predicate Slowing(m: Motor, ms: nat) {
    m.driveState.Stopping? && m.stateMs == ms && m.driveFault.NoFault? && Willing(m)
  }

  lemma EnableSlowing(ms: nat)
    ensures Takes(m => Slowing(m, ms), m => Slowing(m, ms), (r: CmdMotor) => r.driveReq.Enable?, false, false)
  {
  }

  lemma PollSlowing(m: Motor, cfg: Config, ms: nat)
    requires Slowing(m, ms) && cfg.timing.stopRampMs + cfg.CycleMs() < U32
    ensures ms < cfg.timing.stopRampMs ==> Slowing(PollMotor(m, cfg), ms + cfg.CycleMs())
    ensures ms >= cfg.timing.stopRampMs ==>
      Waiting(PollMotor(m, cfg)) && PollMotor(m, cfg).driveFault.NoFault?
  {
  }

  /** The next step of the ramp, or its end. */
  predicate SlowedTo(m: Motor, ms: nat, cfg: Config) {
    if ms < cfg.timing.stopRampMs then Slowing(m, ms + cfg.CycleMs())
    else Waiting(m) && m.driveFault.NoFault?
  }

  lemma SlowingCycle(s: State, cmd: Command, cfg: Config, x: Slot, ms: nat)
    requires Calm(s) && 0 < cfg.timing.hostLostCycles && Arms(cmd, s, x) && There(s, x)
    requires Slowing(The(s, x), ms) && cfg.timing.stopRampMs + cfg.CycleMs() < U32
    ensures var t := Happen(s, CycleWith([cmd]), cfg);
      Calm(t) && There(t, x) && SameShape(s.chains, t.chains) && SlowedTo(The(t, x), ms, cfg)
  {
    hide Cycle, Slowing, SlowedTo, Takes, Swap, ReadHost, Arms, AnyMismatch, PollMotor, ApplyRequest;
    HappenKeepsShape(s, CycleWith([cmd]), cfg);
    CycleHappens(s, CycleWith([cmd]), cfg);
    FreshEnables(s, cmd, cfg, x);
    EnableSlowing(ms);
    forall m: Motor | Slowing(m, ms)
      ensures SlowedTo(PollMotor(m, cfg), ms, cfg)
    {
      PollIsSlowedTo(m, cfg, ms);
    }
    EnablingCycle(
      m => Slowing(m, ms), m => Slowing(m, ms), m => SlowedTo(m, ms, cfg), s, [cmd], cfg, cmd, x);
  }

  lemma PollIsSlowedTo(m: Motor, cfg: Config, ms: nat)
    requires Slowing(m, ms) && cfg.timing.stopRampMs + cfg.CycleMs() < U32
    ensures SlowedTo(PollMotor(m, cfg), ms, cfg)
  {
    PollSlowing(m, cfg, ms);
    hide PollMotor;
  }

  /** One cycle for each frame. */
  function Under(frames: seq<Command>): seq<Event> {
    if frames == [] then [] else [CycleWith([frames[0]])] + Under(frames[1..])
  }

  /** k more cycles carry the ramp to its end, and one more sees it there; all of them under frames
      that enable the motor. */
  lemma {:induction false} SlowsDown(s: State, frames: seq<Command>, cfg: Config, x: Slot, ms: nat, k: nat)
    requires Calm(s) && 0 < cfg.timing.hostLostCycles && There(s, x) && Slowing(The(s, x), ms)
    requires |frames| == k + 1 && forall f :: f in frames ==> Arms(f, s, x)
    requires cfg.timing.stopRampMs + cfg.CycleMs() < U32 && cfg.CycleMs() > 0
    requires ms + cfg.CycleMs() * k >= cfg.timing.stopRampMs
    requires k > 0 ==> ms + cfg.CycleMs() * (k - 1) < cfg.timing.stopRampMs
    ensures var t := Evolve(s, Under(frames), cfg);
      && Calm(t) && SameShape(s.chains, t.chains) && There(t, x)
      && Waiting(The(t, x)) && The(t, x).driveFault.NoFault?
    decreases k
  {
    hide Happen, Slowing, Waiting, Arms, Calm;
    var d := cfg.CycleMs();
    if k > 0 {
      assert d * (k - 1) >= 0;
    }
    assert frames[0] in frames;
    SlowingCycle(s, frames[0], cfg, x, ms);
    var next := Happen(s, CycleWith([frames[0]]), cfg);
    assert Under(frames)[1..] == Under(frames[1..]);
    if k == 0 {
      assert frames[1..] == [] && Under([]) == [];
    } else {
      forall f | f in frames[1..]
        ensures Arms(f, next, x)
      {
        ArmsInSameShape(f, s, next, x);
      }
      assert d * k == d * (k - 1) + d;
      assert k > 1 ==> d * (k - 1) == d * (k - 2) + d;
      SlowsDown(next, frames[1..], cfg, x, ms + d, k - 1);
    }
  }

  lemma FaultSlows(s: State, x: Slot, cfg: Config)
    requires Calm(s) && There(s, x) && Willing(The(s, x))
    requires The(s, x).driveState.Enabled? && The(s, x).driveFault.NoFault?
    ensures var t := Happen(s, ForceFault(x.c, x.k, NoFault), cfg);
      Calm(t) && There(t, x) && SameShape(s.chains, t.chains) && Slowing(The(t, x), 0)
  {
  }

  /** The session goes on, and arms the motor again. A fault without a cause is reported of an ENABLED
      motor: under running frames it ramps to DISABLED with nothing latched, and the next one arms it. */
  lemma SpuriousFaultRearms(
    s: State, frames: seq<Command>, again: Command, cfg: Config, x: Slot, k: nat)
    requires Calm(s) && 0 < cfg.timing.hostLostCycles && 0 < cfg.timing.enableTimeoutMs
    requires There(s, x) && Willing(The(s, x))
    requires The(s, x).driveState.Enabled? && The(s, x).driveFault.NoFault?
    requires |frames| == k + 1 && Arms(again, s, x) && forall f :: f in frames ==> Arms(f, s, x)
    requires cfg.timing.stopRampMs + cfg.CycleMs() < U32 && cfg.CycleMs() > 0
    requires cfg.CycleMs() * k >= cfg.timing.stopRampMs
    requires k > 0 ==> cfg.CycleMs() * (k - 1) < cfg.timing.stopRampMs
    ensures var down := Evolve(s, [ForceFault(x.c, x.k, NoFault)] + Under(frames), cfg);
      && OffIn(down, x) && The(down, x).driveState.Disabled? && The(down, x).driveFault.NoFault?
      && var up := Happen(down, CycleWith([again]), cfg);
        There(up, x) && IsArmed(The(up, x).driveState)
  {
    hide Cycle, Happen, Arms, Calm, Swap, ReadHost, Enabling, Slowing, Under;
    var s1 := Happen(s, ForceFault(x.c, x.k, NoFault), cfg);
    FaultSlows(s, x, cfg);
    forall f | f in frames
      ensures Arms(f, s1, x)
    {
      ArmsInSameShape(f, s, s1, x);
    }
    SlowsDown(s1, frames, cfg, x, 0, k);
    var events := [ForceFault(x.c, x.k, NoFault)] + Under(frames);
    assert events[1..] == Under(frames);
    var down := Evolve(s1, Under(frames), cfg);
    ShapeChain(s, s1, down, down);
    ArmsInSameShape(again, s, down, x);
    FreshEnables(down, again, cfg, x);
    ArmingCycle(down, [again], again, cfg, x);
    CycleHappens(down, CycleWith([again]), cfg);
  }

  // ---- A frame older than the activation ----

  /** The world after a cycle that takes so many frames off the channel, its report delivered. */
  function CycleAndReport(w: World, count: nat, cfg: Config): World {
    After(w, [MasterCycle(count), DeliverUpTo(|w.tele| + 1)], cfg)
  }

  lemma CycleReports(w: World, count: nat, cfg: Config)
    requires w.delivered <= |w.tele|
    ensures var n := Min(count, |w.wire|);
      && n <= |w.wire|
      && var s := Cycle(w.master, w.wire[..n], cfg);
        CycleAndReport(w, count, cfg) ==
        w.(master := s, wire := w.wire[n..], tele := w.tele + [s], delivered := |w.tele| + 1)
  {
    hide Cycle, Happen;
    var moves := [MasterCycle(count), DeliverUpTo(|w.tele| + 1)];
    var v := Apply(w, moves[0], cfg);
    CycleHappens(w.master, CycleWith(w.wire[..Min(count, |w.wire|)]), cfg);
    assert moves[1..] == [DeliverUpTo(|w.tele| + 1)] && moves[1..][1..] == [];
    assert After(v, moves[1..], cfg) == After(Apply(v, moves[1], cfg), [], cfg);
  }

  /** The command acted on asks the motor for nothing. */
  ghost predicate IdlesAt(s: State, x: Slot) {
    s.active.Some? ==> QuietAt(s.active.value, x.id, x.k)
  }

  /** Nothing new is read, and what is acted on asks for nothing: a DISABLED motor stays so. */
  lemma IdleCycle(s: State, cfg: Config, x: Slot)
    requires Calm(s) && s.cyclesSinceFresh + 1 < cfg.timing.hostLostCycles && s.pending.None?
    requires There(s, x) && Waiting(The(s, x)) && IdlesAt(s, x) && x.k < MAX_MOTORS
    ensures var t := Cycle(s, [], cfg);
      && Calm(t) && t.pending.None? && t.active == s.active && SameShape(s.chains, t.chains)
      && t.cyclesSinceFresh <= s.cyclesSinceFresh + 1 && There(t, x) && Waiting(The(t, x))
  {
    hide Cycle, Waiting, PollMotor, ApplyRequest, AnyMismatch, AnyArmed, CarriesReset;
    CycleKeepsCalm(s, [], cfg);
    HappenKeepsShape(s, CycleWith([]), cfg);
    CycleHappens(s, CycleWith([]), cfg);
    CycleCounts(s, [], cfg);
    var P := (m: Motor) => Waiting(m);
    forall m: Motor, r: CmdMotor, q: u16 | P(m) && !r.driveReq.Enable?
      ensures P(ApplyRequest(m, r, q))
    {
      QuietKeepsWaiting(m, r, q);
    }
    forall m: Motor | P(m)
      ensures P(PollMotor(m, cfg))
    {
      PollWaiting(m, cfg);
    }
    CycleKeeps(P, (r: CmdMotor) => !r.driveReq.Enable?, s, [], cfg, x.c, x.k);
  }

  lemma QuietKeepsWaiting(m: Motor, r: CmdMotor, q: u16)
    requires Waiting(m) && !r.driveReq.Enable?
    ensures Waiting(ApplyRequest(m, r, q))
  {
  }

  /** The mailbox and its counter after a cycle. */
  lemma CycleCounts(s: State, arrivals: seq<Command>, cfg: Config)
    ensures var t := Cycle(s, arrivals, cfg);
      && t.pending.None?
      && (arrivals != [] ==> t.active == Some(arrivals[|arrivals| - 1]) && t.cyclesSinceFresh == 0)
      && (arrivals == [] && s.pending.None? ==>
            t.active == s.active && t.cyclesSinceFresh <= s.cyclesSinceFresh + 1)
  {
    hide ApplyChains, PollMotor, AnyArmed, CarriesReset;
  }

  lemma StillEnables(s: State, cmd: Command, cfg: Config, x: Slot)
    requires Calm(s) && s.cyclesSinceFresh + 1 < cfg.timing.hostLostCycles && s.pending.None?
    requires s.active == Some(cmd) && Arms(cmd, s, x)
    ensures Enabling(Swap(ReadHost(s, []), cfg), cmd, x)
  {
    hide Cycle, AnyArmed, CarriesReset, Covered, AlwaysAt;
    CycleKeepsCalm(s, [], cfg);
  }

  /** Acting on the same command again, an ENABLING motor comes up. */
  lemma StartingCycle(s: State, cmd: Command, cfg: Config, x: Slot, ms: nat)
    requires Calm(s) && s.cyclesSinceFresh + 1 < cfg.timing.hostLostCycles && s.pending.None?
    requires s.active == Some(cmd) && Arms(cmd, s, x) && Starting(The(s, x), ms)
    requires ms < cfg.timing.enableTimeoutMs && ms + cfg.CycleMs() < U32
    ensures var t := Cycle(s, [], cfg);
      && Calm(t) && t.pending.None? && t.active == s.active && SameShape(s.chains, t.chains)
      && t.cyclesSinceFresh <= s.cyclesSinceFresh + 1 && There(t, x)
      && if ms < ENABLE_RUN_MS then Starting(The(t, x), ms + cfg.CycleMs())
         else The(t, x).driveState.Enabled?
  {
    hide Cycle, Starting, PollMotor, ApplyRequest, AnyMismatch, AnyArmed, CarriesReset, Takes, Arms, Enabling;
    CycleKeepsCalm(s, [], cfg);
    HappenKeepsShape(s, CycleWith([]), cfg);
    CycleHappens(s, CycleWith([]), cfg);
    CycleCounts(s, [], cfg);
    EnableStarting(ms);
    StillEnables(s, cmd, cfg, x);
    ArmsThere(cmd, s, x);
    var T := (m: Motor) =>
      if ms < ENABLE_RUN_MS then Starting(m, ms + cfg.CycleMs()) else m.driveState.Enabled?;
    forall m: Motor | Starting(m, ms)
      ensures T(PollMotor(m, cfg))
    {
      PollStarting(m, cfg, ms);
    }
    EnablingCycle(m => Starting(m, ms), m => Starting(m, ms), T, s, [], cfg, cmd, x);
  }

  /** An earlier session's ENABLE is still on the channel when an activation begins: it sends RESET,
      is told twice that the motor is DISABLED, and sends its own ENABLE; the master then takes the
      old frame alone. */
  function OldEnableRun(w: World, clear: Command, arm: Command, cfg: Config): World {
    var captured := CycleAndReport(CycleAndReport(Sent(w, clear), 0, cfg), 0, cfg);
    var up := CycleAndReport(Sent(captured, arm), 1, cfg);
    CycleAndReport(CycleAndReport(up, 0, cfg), 0, cfg)
  }

  /** The master's five cycles in it. */
  lemma OldEnableCycles(s: State, stale: Command, cfg: Config, x: Slot)
    returns (s1: State, s2: State, s3: State, s4: State, s5: State)
    requires cfg == Config(FIRMWARE_TIMING, 5000) && Calm(s) && s.pending.None? && s.cyclesSinceFresh == 0
    requires IdlesAt(s, x) && Arms(stale, s, x) && There(s, x) && Waiting(The(s, x)) && x.k < MAX_MOTORS
    ensures s1 == Cycle(s, [], cfg) && s2 == Cycle(s1, [], cfg) && s3 == Cycle(s2, [stale], cfg)
    ensures s4 == Cycle(s3, [], cfg) && s5 == Cycle(s4, [], cfg)
    ensures There(s1, x) && Waiting(The(s1, x)) && There(s2, x) && Waiting(The(s2, x))
    ensures There(s5, x) && The(s5, x).driveState.Enabled?
  {
    hide Cycle, Arms, Calm, Swap, ReadHost, Enabling, Starting, Waiting, QuietAt;
    s1 := Cycle(s, [], cfg);
    IdleCycle(s, cfg, x);
    s2 := Cycle(s1, [], cfg);
    IdleCycle(s1, cfg, x);
    ArmsInSameShape(stale, s, s1, x);
    ArmsInSameShape(stale, s1, s2, x);
    s3 := Cycle(s2, [stale], cfg);
    FreshEnables(s2, stale, cfg, x);
    ArmingCycle(s2, [stale], stale, cfg, x);
    CycleCounts(s2, [stale], cfg);
    HappenKeepsShape(s2, CycleWith([stale]), cfg);
    CycleHappens(s2, CycleWith([stale]), cfg);
    ArmsInSameShape(stale, s2, s3, x);
    s4 := Cycle(s3, [], cfg);
    StartingCycle(s3, stale, cfg, x, 5);
    ArmsInSameShape(stale, s3, s4, x);
    s5 := Cycle(s4, [], cfg);
    StartingCycle(s4, stale, cfg, x, 10);
  }

  lemma OldEnableWorld(w: World, stale: Command, clear: Command, arm: Command, cfg: Config)
    requires w.wire == [stale] && w.delivered == |w.tele|
    ensures var s1 := Cycle(w.master, [], cfg);
      var s2 := Cycle(s1, [], cfg);
      var s3 := Cycle(s2, [stale], cfg);
      var s4 := Cycle(s3, [], cfg);
      var s5 := Cycle(s4, [], cfg);
      OldEnableRun(w, clear, arm, cfg) ==
      w.(master := s5, wire := [clear, arm], tele := w.tele + [s1] + [s2] + [s3] + [s4] + [s5],
         delivered := |w.tele| + 5)
  {
    hide Cycle, CycleAndReport;
    var w0 := Sent(w, clear);
    CycleReports(w0, 0, cfg);
    var w1 := CycleAndReport(w0, 0, cfg);
    CycleReports(w1, 0, cfg);
    var w2 := CycleAndReport(w1, 0, cfg);
    var w3 := Sent(w2, arm);
    assert w3.wire == [stale, clear, arm] && w3.wire[..1] == [stale] && w3.wire[1..] == [clear, arm];
    CycleReports(w3, 1, cfg);
    var w4 := CycleAndReport(w3, 1, cfg);
    CycleReports(w4, 0, cfg);
    var w5 := CycleAndReport(w4, 0, cfg);
    CycleReports(w5, 0, cfg);
    var v := CycleAndReport(w5, 0, cfg);
  }

  lemma WaitingIsDisabled(m: Motor)
    requires Waiting(m)
    ensures m.driveState.Disabled?
  {
  }

  /** At the firmware's timing the activation is then told that the motor is ENABLED, in the last of
      those cycles, and its own RESET is still to come: without its hypothesis, success does not mean
      that no RESET is left. */
  lemma OldEnableLooksLikeThisOne(w: World, stale: Command, clear: Command, arm: Command, x: Slot)
    requires w.wire == [stale] && w.delivered == |w.tele| && Calm(w.master) && w.master.pending.None?
    requires w.master.cyclesSinceFresh == 0 && IdlesAt(w.master, x) && Arms(stale, w.master, x)
    requires There(w.master, x) && Waiting(The(w.master, x)) && x.k < MAX_MOTORS && !AsksNoReset(clear)
    ensures var v := OldEnableRun(w, clear, arm, Config(FIRMWARE_TIMING, 5000));
      && v.delivered == |v.tele| == |w.tele| + 5 && v.wire == [clear, arm] && !AllNoReset(v)
      && (forall i :: |w.tele| <= i < |w.tele| + 2 ==>
        There(v.tele[i], x) && The(v.tele[i], x).driveState.Disabled?)
      && There(v.tele[|w.tele| + 4], x) && The(v.tele[|w.tele| + 4], x).driveState.Enabled?
  {
    hide Cycle, Happen, Arms, Calm, Swap, ReadHost, CycleAndReport, Waiting, There, AsksNoReset, Box;
    var cfg := Config(FIRMWARE_TIMING, 5000);
    var s1, s2, s3, s4, s5 := OldEnableCycles(w.master, stale, cfg, x);
    OldEnableWorld(w, stale, clear, arm, cfg);
    var v := OldEnableRun(w, clear, arm, cfg);
    WaitingIsDisabled(The(s1, x));
    WaitingIsDisabled(The(s2, x));
    assert clear in Mail(v);
  }
}
