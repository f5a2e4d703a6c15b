/** The master's cycle in place: fields, nested loops and the latched watchdog. */
module FakeMasters {
  import opened Wrappers
  import opened Framing
  import opened Telemetry
  import opened DriveSm
  import opened Master

  class HostWatchdog {
    var stopped: bool

    constructor (stopped: bool)
      ensures this.stopped == stopped
    {
      this.stopped := stopped;
    }

    /** Latched: only a fresh command carrying RESET recovers, and not past a new trip. */
    method Step(cyclesSinceFresh: nat, armed: bool, resetSeen: bool, lostCycles: nat)
      modifies this
      ensures stopped == Watchdog(old(stopped), cyclesSinceFresh, armed, resetSeen, lostCycles)
    {
      if resetSeen {
        stopped := false;
      }
      if !stopped && armed && cyclesSinceFresh >= lostCycles {
        stopped := true;
      }
    }
  }

  class FakeMaster {
    const cfg: Config
    var chains: seq<Chain>
    var pending: Option<Command>
    var active: Option<Command>
    var cmdSeqRx: u16
    var cmdSeqActive: u16
    var cyclesSinceFresh: nat
    var hostLost: bool
    var cycleId: u16
    var masterTimeUs: u32

    ghost function Contents(): State
      reads this
    {
      State(chains, pending, active, cmdSeqRx, cmdSeqActive, cyclesSinceFresh, hostLost, cycleId,
            masterTimeUs)
    }

    constructor (cfg: Config, chains: seq<Chain>)
      ensures this.cfg == cfg
      ensures Contents() == State(chains, None, None, 0, 0, 0, false, 0, 0)
    {
      this.cfg, this.chains := cfg, chains;
      pending, active := None, None;
      cmdSeqRx, cmdSeqActive, cyclesSinceFresh, hostLost := 0, 0, 0, false;
      cycleId, masterTimeUs := 0, 0;
    }

    /** One master cycle, over the commands read from the host since the last. */
    method RunCycle(arrivals: seq<Command>)
      modifies this
      ensures Contents() == Cycle(old(Contents()), arrivals, cfg)
    {
      hide Master.ApplyRequests, Master.PollDrives, Master.ReadHost, Swap;
      Receive(arrivals);
      SwapMailbox();
      ApplyRequests();
      PollDrives();
    }

    method Receive(arrivals: seq<Command>)
      modifies this`pending, this`cmdSeqRx
      ensures Contents() == ReadHost(old(Contents()), arrivals)
    {
      for i := 0 to |arrivals|
        invariant Contents() == ReadHost(old(Contents()), arrivals[..i])
      {
        pending := Some(arrivals[i]);
        cmdSeqRx := arrivals[i].cmdSeq;
        assert arrivals[..i + 1][i] == arrivals[i];
      }
      assert arrivals[..|arrivals|] == arrivals;
    }

    method SwapMailbox()
      modifies this
      ensures Contents() == Swap(old(Contents()), cfg)
    {
      hide CarriesReset, AnyArmed;
      cycleId := (cycleId + 1) % 0x1_0000;
      masterTimeUs := (masterTimeUs + cfg.cycleUs) % U32;
      var resetSeen := false;
      if pending.Some? {
        active := pending;
        cmdSeqActive := pending.value.cmdSeq;
        resetSeen := CarriesReset(pending.value);
        pending := None;
        cyclesSinceFresh := 0;
      } else {
        cyclesSinceFresh := (cyclesSinceFresh + 1) % U32;
      }
      var watchdog := new HostWatchdog(hostLost);
      watchdog.Step(cyclesSinceFresh, AnyArmed(chains), resetSeen, cfg.timing.hostLostCycles);
      hostLost := watchdog.stopped;
    }

    method ApplyRequests()
      modifies this`chains
      ensures Contents() == Master.ApplyRequests(old(Contents()))
    {
      if active.None? {
        return;
      }
      hide ApplyRequest, ApplyToChain;
      var command := active.value;
      var gate := AnyMismatch(chains);
      var chainCount := Min(command.nChains, MAX_CHAINS);
      ghost var start := chains;
      for c := 0 to chainCount
        invariant |chains| == |start|
        invariant chains == ApplyChains(start, command, c, hostLost, gate, cmdSeqActive)
      {
        var requested := command.chains[c];
        ghost var before := chains;
        for i := 0 to |chains|
          invariant |chains| == |before|
          invariant forall j :: 0 <= j < |before| ==>
            chains[j] == (if j < i then ApplyToChain(before[j], requested, hostLost, gate, cmdSeqActive)
                          else before[j])
        {
          var updated := ApplyOne(chains[i], requested, gate);
          chains := chains[i := updated];
        }
      }
    }

    method ApplyOne(chain: Chain, requested: CmdChain, gate: bool) returns (r: Chain)
      requires |requested.motors| == MAX_MOTORS
      ensures r == ApplyToChain(chain, requested, hostLost, gate, cmdSeqActive)
    {
      hide ApplyRequest;
      if chain.id != requested.chainId || chain.mismatch {
        return chain;
      }
      var motors := chain.motors;
      var slots := SlotCount(requested, chain);
      for m := 0 to slots
        invariant |motors| == |chain.motors|
        invariant forall k :: 0 <= k < |motors| ==>
          motors[k] == (
            if k < m then
              ApplyRequest(chain.motors[k],
                Forwarded(requested.motors[k], chain.motors[k].driveState, hostLost, gate),
                cmdSeqActive)
            else chain.motors[k])
      {
        var request := requested.motors[m];
        if hostLost {
          request := request.(driveReq := Stop, valid := false, useConfigGains := false);
        } else if gate {
          request := request.(driveReq := GateFilter(request.driveReq, motors[m].driveState));
        }
        motors := motors[m := ApplyRequest(motors[m], request, cmdSeqActive)];
      }
      r := chain.(motors := motors);
      assert r.motors == ApplyToChain(chain, requested, hostLost, gate, cmdSeqActive).motors;
    }

    method PollDrives()
      modifies this`chains
      ensures Contents() == Master.PollDrives(old(Contents()), cfg)
    {
      hide PollMotor;
      ghost var start := chains;
      for i := 0 to |chains|
        invariant |chains| == |start|
        invariant forall j :: 0 <= j < |start| ==>
          chains[j] == if j < i then PollChain(start[j], cfg) else start[j]
      {
        var motors := chains[i].motors;
        for k := 0 to |motors|
          invariant |motors| == |start[i].motors|
          invariant forall j :: 0 <= j < |motors| ==>
            motors[j] == (if j < k then PollMotor(start[i].motors[j], cfg) else start[i].motors[j])
        {
          motors := motors[k := PollMotor(motors[k], cfg)];
        }
        assert motors == PollChain(start[i], cfg).motors;
        chains := chains[i := chains[i].(motors := motors)];
      }
    }
  }
}
