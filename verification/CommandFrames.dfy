/** Command frames built slot by slot for a wiring, and what a filled frame asks of each motor. */
module CommandFrames {
  import opened Wrappers
  import opened Framing
  import opened Telemetry
  import opened JointWiring
  import opened Master
  import opened DeadMan
  import opened Latching
  import opened Channel
  import opened Rearming

  const NO_CHAIN := 255

  function SlotOf(cmd: Command, i: nat, k: nat): CmdMotor
    requires i < MAX_CHAINS && k < MAX_MOTORS
  {
    cmd.chains[i].motors[k]
  }

  function SetSlot(cmd: Command, i: nat, k: nat, r: CmdMotor): (c: Command)
    requires i < MAX_CHAINS && k < MAX_MOTORS
    ensures forall a, b :: 0 <= a < MAX_CHAINS && 0 <= b < MAX_MOTORS ==>
      SlotOf(c, a, b) == if a == i && b == k then r else SlotOf(cmd, a, b)
    ensures forall a :: 0 <= a < MAX_CHAINS ==>
      c.chains[a].chainId == cmd.chains[a].chainId && c.chains[a].nMotors == cmd.chains[a].nMotors
    ensures c.nChains == cmd.nChains && c.cmdSeq == cmd.cmdSeq && c.cycleId == cmd.cycleId
  {
    var chain := cmd.chains[i];
    cmd.(chains := cmd.chains[i := chain.(motors := chain.motors[k := r])])
  }

  // ---- The chain index ----

  ghost predicate Indexed(l: Layout, index: seq<nat>)
    requires ValidLayout(l)
  {
    && |index| == MAX_CHAINS
    && forall c :: 0 <= c < |l.chains| ==> index[l.chains[c].chainId] == c
  }

  method IndexChains(l: Layout) returns (index: seq<nat>)
    requires ValidLayout(l)
    ensures Indexed(l, index)
  {
    index := [NO_CHAIN, NO_CHAIN, NO_CHAIN, NO_CHAIN];
    for c := 0 to |l.chains|
      invariant |index| == MAX_CHAINS
      invariant forall i :: 0 <= i < c ==> index[l.chains[i].chainId] == i
    {
      hide Wired, CountsSlots, Announces;
      index := index[l.chains[c].chainId := c];
    }
  }

  /** Where joint j's request goes. */
  function At(l: Layout, index: seq<nat>, j: nat): (nat, nat)
    requires j < |l.joints| && |index| == MAX_CHAINS && l.joints[j].chain < MAX_CHAINS
  {
    (index[l.joints[j].chain], l.joints[j].motor)
  }

  /** Its frame chain is its own chain, with room for its motor. */
  lemma Addressed(l: Layout, index: seq<nat>, j: nat)
    requires ValidLayout(l) && Indexed(l, index) && j < |l.joints|
    ensures l.joints[j].chain < MAX_CHAINS && l.joints[j].motor < MAX_MOTORS
    ensures |index| == MAX_CHAINS
    ensures var (i, k) := At(l, index, j);
      i < |l.chains| && l.chains[i].chainId == l.joints[j].chain && k < l.chains[i].motorSlots
  {
    hide Distinct, CountsSlots;
    assert Placed(l.joints[j]);
    assert Announces(l.chains, l.joints[j]);
  }

  lemma AddressedApart(l: Layout, index: seq<nat>, j: nat, k: nat)
    requires ValidLayout(l) && Indexed(l, index) && j < k < |l.joints|
    ensures l.joints[j].chain < MAX_CHAINS && l.joints[k].chain < MAX_CHAINS
    ensures At(l, index, j) != At(l, index, k)
  {
    hide CountsSlots, Announces;
    Addressed(l, index, j);
    Addressed(l, index, k);
    assert !SameSlot(l.joints[j], l.joints[k]);
  }

  // ---- Filling a frame ----

  predicate Headed(cmd: Command, l: Layout)
    requires |l.chains| <= MAX_CHAINS
  {
    && cmd.nChains == |l.chains|
    && (forall i :: 0 <= i < |l.chains| ==>
      && cmd.chains[i].chainId == l.chains[i].chainId
      && cmd.chains[i].nMotors == l.chains[i].motorSlots)
  }

  /** The first |want| joints have their requests in their slots, and no other slot asks for
      anything. */
  ghost predicate Filled(cmd: Command, l: Layout, index: seq<nat>, want: seq<CmdMotor>)
    requires ValidLayout(l) && Indexed(l, index) && |want| <= |l.joints|
  {
    && Headed(cmd, l)
    && (forall j :: 0 <= j < |want| ==> Holds(cmd, l, index, j, want[j]))
    && (forall i, k :: 0 <= i < MAX_CHAINS && 0 <= k < MAX_MOTORS ==>
      SlotOf(cmd, i, k) == ZERO_CMD_MOTOR || SomeJoint(l, index, |want|, i, k))
  }

  ghost predicate Holds(cmd: Command, l: Layout, index: seq<nat>, j: nat, r: CmdMotor)
    requires ValidLayout(l) && Indexed(l, index) && j < |l.joints|
  {
    Addressed(l, index, j);
    SlotOf(cmd, At(l, index, j).0, At(l, index, j).1) == r
  }

  ghost predicate SomeJoint(l: Layout, index: seq<nat>, n: nat, i: nat, k: nat)
    requires ValidLayout(l) && Indexed(l, index) && n <= |l.joints|
  {
    exists j :: 0 <= j < n && AtIs(l, index, j, i, k)
  }

  ghost predicate AtIs(l: Layout, index: seq<nat>, j: nat, i: nat, k: nat)
    requires ValidLayout(l) && Indexed(l, index) && j < |l.joints|
  {
    Addressed(l, index, j);
    At(l, index, j) == (i, k)
  }

  method BlankCommand(l: Layout, cycleId: u16, cmdSeq: u16) returns (cmd: Command)
    requires ValidLayout(l)
    ensures Headed(cmd, l) && cmd.cycleId == cycleId && cmd.cmdSeq == cmdSeq
    ensures forall i, k :: 0 <= i < MAX_CHAINS && 0 <= k < MAX_MOTORS ==>
      SlotOf(cmd, i, k) == ZERO_CMD_MOTOR
  {
    hide Wired, CountsSlots, Announces;
    cmd := ZERO_COMMAND.(cycleId := cycleId, cmdSeq := cmdSeq, nChains := |l.chains|);
    for c := 0 to |l.chains|
      invariant cmd.cycleId == cycleId && cmd.cmdSeq == cmdSeq && cmd.nChains == |l.chains|
      invariant forall i :: 0 <= i < c ==>
        cmd.chains[i].chainId == l.chains[i].chainId && cmd.chains[i].nMotors == l.chains[i].motorSlots
      invariant forall i :: 0 <= i < MAX_CHAINS ==> cmd.chains[i].motors == ZERO_CMD_MOTORS
    {
      cmd := cmd.(chains := cmd.chains[c := cmd.chains[c].(
        chainId := l.chains[c].chainId, nMotors := l.chains[c].motorSlots)]);
    }
  }

  lemma BlankIsFilled(cmd: Command, l: Layout, index: seq<nat>)
    requires ValidLayout(l) && Indexed(l, index) && Headed(cmd, l)
    requires forall i, k :: 0 <= i < MAX_CHAINS && 0 <= k < MAX_MOTORS ==>
      SlotOf(cmd, i, k) == ZERO_CMD_MOTOR
    ensures Filled(cmd, l, index, [])
  {
  }

  lemma FillNext(cmd: Command, l: Layout, index: seq<nat>, want: seq<CmdMotor>, r: CmdMotor)
    requires ValidLayout(l) && Indexed(l, index) && |want| < |l.joints|
    requires Filled(cmd, l, index, want)
    ensures var j := |want|;
      && |index| == MAX_CHAINS && l.joints[j].chain < MAX_CHAINS
      && index[l.joints[j].chain] < MAX_CHAINS
      && l.joints[j].motor < MAX_MOTORS
      && Filled(SetSlot(cmd, index[l.joints[j].chain], l.joints[j].motor, r), l, index, want + [r])
  {
    hide ValidLayout, Indexed, SetSlot, SlotOf;
    var j := |want|;
    Addressed(l, index, j);
    AtMostFour(l);
    var (i, k) := At(l, index, j);
    var next := SetSlot(cmd, i, k, r);
    forall p | 0 <= p < |want| + 1
      ensures Holds(next, l, index, p, (want + [r])[p])
    {
      Addressed(l, index, p);
      if p < j {
        AddressedApart(l, index, p, j);
        assert Holds(cmd, l, index, p, want[p]);
      }
    }
    forall a, b | 0 <= a < MAX_CHAINS && 0 <= b < MAX_MOTORS
      ensures SlotOf(next, a, b) == ZERO_CMD_MOTOR || SomeJoint(l, index, |want| + 1, a, b)
    {
      if a == i && b == k {
        assert AtIs(l, index, j, a, b);
      }
    }
  }

  lemma AtMostFour(l: Layout)
    requires ValidLayout(l)
    ensures |l.chains| <= MAX_CHAINS
  {
  }

  // ---- What a filled frame asks ----

  /** Every slot is blank or some joint's request. */
  lemma SlotsAre(cmd: Command, l: Layout, index: seq<nat>, want: seq<CmdMotor>, i: nat, k: nat)
    requires ValidLayout(l) && Indexed(l, index) && |want| <= |l.joints|
    requires Filled(cmd, l, index, want) && i < MAX_CHAINS && k < MAX_MOTORS
    ensures SlotOf(cmd, i, k) == ZERO_CMD_MOTOR || SlotOf(cmd, i, k) in want
  {
    hide ValidLayout, Indexed, SlotOf;
    if SlotOf(cmd, i, k) != ZERO_CMD_MOTOR {
      assert SomeJoint(l, index, |want|, i, k);
      var j :| 0 <= j < |want| && AtIs(l, index, j, i, k);
      assert Holds(cmd, l, index, j, want[j]);
    }
  }

  lemma FilledIsIdle(cmd: Command, l: Layout, index: seq<nat>, want: seq<CmdMotor>)
    requires ValidLayout(l) && Indexed(l, index) && |want| <= |l.joints|
    requires Filled(cmd, l, index, want)
    requires forall r :: r in want ==> !r.driveReq.Enable? && !r.valid
    ensures Idle(cmd)
  {
    hide Filled, ValidLayout, Indexed;
    forall i, k | 0 <= i < MAX_CHAINS && 0 <= k < MAX_MOTORS
      ensures !cmd.chains[i].motors[k].driveReq.Enable? && !cmd.chains[i].motors[k].valid
    {
      SlotsAre(cmd, l, index, want, i, k);
      assert SlotOf(cmd, i, k) == cmd.chains[i].motors[k];
    }
  }

  lemma FilledHasNoReset(cmd: Command, l: Layout, index: seq<nat>, want: seq<CmdMotor>)
    requires ValidLayout(l) && Indexed(l, index) && |want| <= |l.joints|
    requires Filled(cmd, l, index, want)
    requires forall r :: r in want ==> !r.driveReq.Reset?
    ensures AsksNoReset(cmd)
  {
    hide Filled, ValidLayout, Indexed;
    forall i, k | 0 <= i < MAX_CHAINS && 0 <= k < MAX_MOTORS
      ensures !cmd.chains[i].motors[k].driveReq.Reset?
    {
      SlotsAre(cmd, l, index, want, i, k);
      assert SlotOf(cmd, i, k) == cmd.chains[i].motors[k];
    }
  }

  /** In a full frame, whatever reaches joint j's motor is joint j's request. */
  lemma OnlyItsRequest(
    cmd: Command, l: Layout, index: seq<nat>, want: seq<CmdMotor>, j: nat, i: nat)
    requires ValidLayout(l) && Indexed(l, index) && |want| == |l.joints|
    requires Filled(cmd, l, index, want) && j < |want|
    requires i < MAX_CHAINS && cmd.chains[i].chainId == l.joints[j].chain
    ensures l.joints[j].motor < MAX_MOTORS
    ensures i < cmd.nChains ==> SlotOf(cmd, i, l.joints[j].motor) == want[j]
    ensures i >= cmd.nChains ==> SlotOf(cmd, i, l.joints[j].motor) == ZERO_CMD_MOTOR
  {
    hide SlotOf, CountsSlots, Announces, Wired;
    Addressed(l, index, j);
    assert Holds(cmd, l, index, j, want[j]);
    if i >= cmd.nChains && SomeJoint(l, index, |want|, i, l.joints[j].motor) {
      var p :| 0 <= p < |want| && AtIs(l, index, p, i, l.joints[j].motor);
      Addressed(l, index, p);
      assert false;
    }
  }

  lemma FilledAims(cmd: Command, l: Layout, index: seq<nat>, want: seq<CmdMotor>, j: nat, h: i16)
    requires ValidLayout(l) && Indexed(l, index) && |want| == |l.joints|
    requires Filled(cmd, l, index, want) && j < |want|
    requires (want[j].driveReq.Enable? ==> want[j].valid) && (want[j].valid ==> want[j].pos == h)
    ensures AimsAt(cmd, l.joints[j].chain, l.joints[j].motor, h)
  {
    hide Filled, ValidLayout, Indexed;
    forall i | 0 <= i < MAX_CHAINS && cmd.chains[i].chainId == l.joints[j].chain &&
               l.joints[j].motor < MAX_MOTORS
      ensures var r := cmd.chains[i].motors[l.joints[j].motor];
        (r.driveReq.Enable? ==> r.valid) && (r.valid ==> r.pos == h)
    {
      OnlyItsRequest(cmd, l, index, want, j, i);
      assert SlotOf(cmd, i, l.joints[j].motor) == cmd.chains[i].motors[l.joints[j].motor];
    }
  }

  /** A full frame enables exactly the joints whose requests are ENABLE; a joint whose request is not,
      and brings no tuple, it leaves quiet. */
  lemma FilledEnables(cmd: Command, l: Layout, index: seq<nat>, want: seq<CmdMotor>, j: nat)
    requires ValidLayout(l) && Indexed(l, index) && |want| == |l.joints|
    requires Filled(cmd, l, index, want) && j < |want|
    ensures want[j].driveReq.Enable? ==> Enables(cmd, l.joints[j].chain, l.joints[j].motor)
    ensures !want[j].driveReq.Enable? && !want[j].valid ==>
      QuietAt(cmd, l.joints[j].chain, l.joints[j].motor)
  {
    hide Holds, SomeJoint, CountsSlots, Announces, Wired, Distinct;
    Addressed(l, index, j);
    var (at, k) := At(l, index, j);
    OnlyItsRequest(cmd, l, index, want, j, at);
    assert SlotOf(cmd, at, k) == cmd.chains[at].motors[k];
    forall i | 0 <= i < MAX_CHAINS && cmd.chains[i].chainId == l.joints[j].chain
      ensures cmd.chains[i].motors[k] == if i < cmd.nChains then want[j] else ZERO_CMD_MOTOR
    {
      OnlyItsRequest(cmd, l, index, want, j, i);
      assert SlotOf(cmd, i, k) == cmd.chains[i].motors[k];
    }
  }

  /** Acted on, it asks of joint j's motor what joint j's request asks. */
  lemma FilledAsks(
    cmd: Command, l: Layout, index: seq<nat>, want: seq<CmdMotor>, s: State, j: nat, c: nat,
    R: CmdMotor -> bool)
    requires ValidLayout(l) && Indexed(l, index) && |want| == |l.joints|
    requires Filled(cmd, l, index, want) && j < |want| && R(want[j])
    requires c < |s.chains| && s.chains[c].id == l.joints[j].chain && s.active == Some(cmd)
    ensures Asked(R, s, c, l.joints[j].motor)
  {
    hide Filled, ValidLayout, Indexed;
    var k := l.joints[j].motor;
    forall i | 0 <= i < Min(cmd.nChains, MAX_CHAINS) && Names(cmd.chains[i], s.chains[c], k)
      ensures R(cmd.chains[i].motors[k])
    {
      OnlyItsRequest(cmd, l, index, want, j, i);
      assert SlotOf(cmd, i, k) == cmd.chains[i].motors[k];
    }
  }

  /** A full frame reaches every wired motor the robot has, so the dead-man covers every joint. */
  lemma FilledCovers(
    cmd: Command, l: Layout, index: seq<nat>, want: seq<CmdMotor>, s: State, j: nat, c: nat)
    requires ValidLayout(l) && Indexed(l, index) && |want| == |l.joints|
    requires Filled(cmd, l, index, want) && j < |want|
    requires Exists(s, c, l.joints[j].motor) && s.chains[c].id == l.joints[j].chain
    requires s.active == Some(cmd) && !s.chains[c].mismatch
    ensures CoveredIn(s, c, l.joints[j].motor)
  {
    hide Holds, SomeJoint, CountsSlots, Announces, Wired;
    Addressed(l, index, j);
    var (i, k) := At(l, index, j);
    assert Names(cmd.chains[i], s.chains[c], k);
  }
}
