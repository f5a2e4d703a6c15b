/** What a world keeps while the host sends one kind of traffic, as one relation between the world
    before and the world after. */
module Traffics {
  import opened Bits
  import opened Telemetry
  import opened JointWiring
  import opened JointPolicy
  import opened DriveSm
  import opened Master
  import opened DeadMan
  import opened Latching
  import opened Channel
  import opened Rearming
  import opened MasterReports

  /** Nothing but STOP and DISABLE; nothing but RESET; ENABLE for every joint at its hold target;
      running requests, ENABLE for the enabled joints and nothing for the others. */
  datatype Traffic = Harmless | Resetting | Arming | Running(enabled: set<nat>) {
    /** It asks for nothing to be armed. */
    predicate Idles() { Harmless? || Resetting? }

    /** It arms each joint only at its hold target. */
    predicate Aims() { !Running? }

    function Enabled(): set<nat> { if Running? then enabled else {} }
  }

  /** The command is of its kind. */
  ghost predicate Obeys(cmd: Command, t: Traffic, joints: seq<Wiring>, hold: seq<i16>) {
    && (t.Idles() ==> Idle(cmd))
    && (!t.Resetting? ==> AsksNoReset(cmd))
    && (t.Aims() ==> AimsJoints(cmd, joints, hold))
    && (t.Arming? ==> forall j :: 0 <= j < |joints| ==> EnablesJoint(cmd, joints[j]))
    && (t.Running? ==> forall j :: 0 <= j < |joints| ==> AsksOnly(cmd, joints[j], j in t.enabled))
  }

  predicate EnablesJoint(cmd: Command, w: Wiring) {
    Enables(cmd, w.chain, w.motor)
  }

  predicate QuietJoint(cmd: Command, w: Wiring) {
    QuietAt(cmd, w.chain, w.motor)
  }

  predicate AsksOnly(cmd: Command, w: Wiring, enabled: bool) {
    if enabled then EnablesJoint(cmd, w) else QuietJoint(cmd, w)
  }

  ghost predicate AimedJoints(w: World, from: nat, joints: seq<Wiring>, hold: seq<i16>) {
    forall j :: 0 <= j < |joints| && j < |hold| ==>
      AimedSlot(w, from, joints[j].chain, joints[j].motor, hold[j])
  }

  ghost predicate AimsJoints(cmd: Command, joints: seq<Wiring>, hold: seq<i16>) {
    forall j :: 0 <= j < |joints| && j < |hold| ==>
      AimsAt(cmd, joints[j].chain, joints[j].motor, hold[j])
  }

  /** The slot is joint j's. */
  predicate IsOf(x: Slot, joints: seq<Wiring>, j: nat) {
    j < |joints| && x.id == joints[j].chain && x.k == joints[j].motor
  }

  ghost predicate LaunchedJoint(
    w: World, from: nat, x: Slot, j: nat, joints: seq<Wiring>, enabled: set<nat>)
  {
    IsOf(x, joints, j) && from <= |w.tele| && Launched(w, from, x, j in enabled)
  }

  ghost predicate ReadyingJoint(
    w: World, at: nat, x: Slot, j: nat, joints: seq<Wiring>, open: bool)
  {
    IsOf(x, joints, j) && Readying(w, at, x, open)
  }

  ghost predicate TogetherJoints(w: World, i: nat, j: nat, joints: seq<Wiring>) {
    && i < |joints| && j < |joints|
    && Together(w, joints[i].chain, joints[i].motor, joints[j].chain, joints[j].motor)
  }

  // ---- What is kept ----

  ghost predicate KeepsSettled(w: World, v: World) {
    forall from: nat, id: byte, k: nat :: Settled(w, from, id, k) ==> Settled(v, from, id, k)
  }

  ghost predicate KeepsUnarmed(w: World, v: World) {
    forall id: byte, k: nat :: QuietMail(w, id, k) ==>
      QuietMail(v, id, k) && (!ArmedIn(w.master, id, k) ==> !ArmedIn(v.master, id, k))
  }

  ghost predicate KeepsFaults(w: World, v: World) {
    AllNoReset(w) ==> AllNoReset(v) && FaultsSince(w, v)
  }

  ghost predicate KeepsAim(w: World, v: World, joints: seq<Wiring>, hold: seq<i16>) {
    forall from: nat :: AimedJoints(w, from, joints, hold) ==> AimedJoints(v, from, joints, hold)
  }

  ghost predicate KeepsReadying(w: World, v: World, joints: seq<Wiring>, open: bool) {
    forall at: nat, x: Slot, j: nat ::
      ReadyingJoint(w, at, x, j, joints, open) ==> ReadyingJoint(v, at, x, j, joints, open)
  }

  ghost predicate KeepsLaunched(w: World, v: World, joints: seq<Wiring>, enabled: set<nat>) {
    forall from: nat, x: Slot, j: nat ::
      LaunchedJoint(w, from, x, j, joints, enabled) ==> LaunchedJoint(v, from, x, j, joints, enabled)
  }

  /** Joints asked for together stay so, unless the traffic enables one without the other. */
  ghost predicate KeepsTogether(w: World, v: World, joints: seq<Wiring>, t: Traffic) {
    forall i: nat, j: nat ::
      (t.Running? && j in t.enabled ==> i in t.enabled) && TogetherJoints(w, i, j, joints) ==>
      TogetherJoints(v, i, j, joints)
  }

  ghost predicate Evolves(w: World, v: World, t: Traffic, joints: seq<Wiring>, hold: seq<i16>) {
    && Sound(w) && Sound(v) && Extends(v, w)
    && (t.Idles() ==> KeepsSettled(w, v) && KeepsUnarmed(w, v))
    && (!t.Resetting? ==> KeepsFaults(w, v))
    && (t.Aims() ==> KeepsAim(w, v, joints, hold))
    && (t.Harmless? || t.Arming? ==> KeepsReadying(w, v, joints, t.Arming?))
    && (t.Harmless? || t.Running? ==> KeepsLaunched(w, v, joints, t.Enabled()))
    && KeepsTogether(w, v, joints, t)
  }

  lemma EvolvesSelf(w: World, t: Traffic, joints: seq<Wiring>, hold: seq<i16>)
    requires Sound(w)
    ensures Evolves(w, w, t, joints, hold)
  {
    hide Settled, QuietMail, AllNoReset, AimedJoints, FaultsSince, ArmedIn, ReadyingJoint, LaunchedJoint,
      TogetherJoints, Grows;
    FaultsSinceSelf(w);
    GrowsChain(w.master.chains, w.master.chains, w.master.chains);
  }

  lemma EvolvesChain(w: World, v: World, u: World, t: Traffic, joints: seq<Wiring>, hold: seq<i16>)
    requires Evolves(w, v, t, joints, hold) && Evolves(v, u, t, joints, hold)
    ensures Evolves(w, u, t, joints, hold)
  {
    hide Settled, QuietMail, AllNoReset, AimedJoints, Sound, FaultsSince, ArmedIn, ReadyingJoint,
      LaunchedJoint, TogetherJoints, Grows;
    GrowsChain(w.master.chains, v.master.chains, u.master.chains);
    if !t.Resetting? && AllNoReset(w) {
      FaultsSinceChain(w, v, u);
    }
  }

  // ---- Time passing ----

  lemma TimeKeepsArming(
    w: World, moves: seq<Move>, cfg: Config, joints: seq<Wiring>, enabled: set<nat>, open: bool)
    ensures KeepsReadying(w, After(w, moves, cfg), joints, open)
    ensures KeepsLaunched(w, After(w, moves, cfg), joints, enabled)
  {
    hide Readying, Launched, After;
    var v := After(w, moves, cfg);
    forall at: nat, x: Slot, j: nat | ReadyingJoint(w, at, x, j, joints, open)
      ensures ReadyingJoint(v, at, x, j, joints, open)
    {
      ReadyingAfter(w, moves, cfg, at, x, open);
    }
    forall from: nat, x: Slot, j: nat | LaunchedJoint(w, from, x, j, joints, enabled)
      ensures LaunchedJoint(v, from, x, j, joints, enabled)
    {
      LaunchedAfter(w, moves, cfg, from, x, j in enabled);
    }
  }

  lemma TimeKeepsMail(w: World, moves: seq<Move>, cfg: Config, joints: seq<Wiring>, t: Traffic)
    ensures KeepsSettled(w, After(w, moves, cfg)) && KeepsUnarmed(w, After(w, moves, cfg))
    ensures KeepsTogether(w, After(w, moves, cfg), joints, t)
  {
    hide Settled, QuietMail, ArmedIn, Together, After;
    var v := After(w, moves, cfg);
    forall from: nat, id: byte, k: nat | Settled(w, from, id, k)
      ensures Settled(v, from, id, k)
    {
      SettledAfter(w, moves, cfg, from, id, k);
    }
    forall id: byte, k: nat | QuietMail(w, id, k)
      ensures QuietMail(v, id, k) && (!ArmedIn(w.master, id, k) ==> !ArmedIn(v.master, id, k))
    {
      UnarmedAfter(w, moves, cfg, id, k);
    }
    forall i: nat, j: nat | TogetherJoints(w, i, j, joints)
      ensures TogetherJoints(v, i, j, joints)
    {
      TogetherAfter(w, moves, cfg, joints[i].chain, joints[i].motor, joints[j].chain, joints[j].motor);
    }
  }

  lemma TimeKeepsAim(w: World, moves: seq<Move>, cfg: Config, joints: seq<Wiring>, hold: seq<i16>)
    ensures KeepsAim(w, After(w, moves, cfg), joints, hold)
  {
    hide AimedSlot, After;
    forall from: nat, j | AimedJoints(w, from, joints, hold) && 0 <= j < |joints| && j < |hold|
      ensures AimedSlot(After(w, moves, cfg), from, joints[j].chain, joints[j].motor, hold[j])
    {
      AimedAfter(w, moves, cfg, from, joints[j].chain, joints[j].motor, hold[j]);
    }
  }

  lemma TimePasses(w: World, moves: seq<Move>, cfg: Config, t: Traffic, joints: seq<Wiring>, hold: seq<i16>)
    requires Sound(w)
    ensures Evolves(w, After(w, moves, cfg), t, joints, hold)
  {
    hide AllNoReset, Sound, FaultsSince, Extends, After, KeepsSettled, KeepsUnarmed, KeepsTogether, KeepsAim,
      KeepsReadying, KeepsLaunched;
    AfterExtends(w, moves, cfg);
    TimeKeepsArming(w, moves, cfg, joints, t.Enabled(), t.Arming?);
    TimeKeepsMail(w, moves, cfg, joints, t);
    TimeKeepsAim(w, moves, cfg, joints, hold);
    if AllNoReset(w) {
      FaultsAfter(w, moves, cfg);
    }
  }

  // ---- A command going out ----

  lemma SentFaultsSince(w: World, cmd: Command)
    ensures FaultsSince(w, Sent(w, cmd))
  {
    FaultsSinceSelf(w);
  }

  lemma EnablesSuits(cmd: Command, x: Slot, open: bool)
    requires AsksNoReset(cmd)
    requires if open then Enables(cmd, x.id, x.k) else QuietAt(cmd, x.id, x.k)
    ensures Suits(cmd, x, open)
  {
    hide AsksNoReset, AlwaysAt, QuietAt;
  }

  lemma SendingKeepsArming(w: World, cmd: Command, t: Traffic, joints: seq<Wiring>, hold: seq<i16>)
    requires Obeys(cmd, t, joints, hold)
    ensures t.Harmless? || t.Arming? ==> KeepsReadying(w, Sent(w, cmd), joints, t.Arming?)
    ensures t.Harmless? || t.Running? ==> KeepsLaunched(w, Sent(w, cmd), joints, t.Enabled())
  {
    hide Readying, Launched, Idle, AsksNoReset, Enables, QuietAt, AimsJoints, Suits, Sent;
    SentTele(w, cmd);
    forall at: nat, x: Slot, j: nat |
      (t.Harmless? || t.Arming?) && ReadyingJoint(w, at, x, j, joints, t.Arming?)
      ensures ReadyingJoint(Sent(w, cmd), at, x, j, joints, t.Arming?)
    {
      if t.Arming? {
        assert EnablesJoint(cmd, joints[j]);
      } else {
        IdleIsQuiet(cmd, x.id, x.k);
      }
      EnablesSuits(cmd, x, t.Arming?);
      ReadyingSent(w, cmd, at, x, t.Arming?);
    }
    forall from: nat, x: Slot, j: nat |
      (t.Harmless? || t.Running?) && LaunchedJoint(w, from, x, j, joints, t.Enabled())
      ensures LaunchedJoint(Sent(w, cmd), from, x, j, joints, t.Enabled())
    {
      if t.Harmless? {
        IdleIsQuiet(cmd, x.id, x.k);
      } else {
        assert AsksOnly(cmd, joints[j], j in t.enabled);
      }
      EnablesSuits(cmd, x, j in t.Enabled());
      LaunchedSent(w, cmd, from, x, j in t.Enabled());
    }
  }

  lemma SentTele(w: World, cmd: Command)
    ensures Sent(w, cmd).tele == w.tele
  {
  }

  lemma SendingKeepsQuiet(w: World, cmd: Command)
    requires Idle(cmd)
    ensures KeepsSettled(w, Sent(w, cmd)) && KeepsUnarmed(w, Sent(w, cmd))
  {
    hide Settled, QuietMail, ArmedIn, Idle, QuietAt;
    var v := Sent(w, cmd);
    forall from: nat, id: byte, k: nat | Settled(w, from, id, k)
      ensures Settled(v, from, id, k)
    {
      IdleIsQuiet(cmd, id, k);
      SettledSent(w, cmd, from, id, k);
    }
    forall id: byte, k: nat | QuietMail(w, id, k)
      ensures QuietMail(v, id, k)
    {
      IdleIsQuiet(cmd, id, k);
      QuietMailSent(w, cmd, id, k);
    }
  }

  lemma SendingKeepsTogether(w: World, cmd: Command, t: Traffic, joints: seq<Wiring>, hold: seq<i16>)
    requires Obeys(cmd, t, joints, hold)
    ensures KeepsTogether(w, Sent(w, cmd), joints, t)
  {
    hide Together, Idle, AsksNoReset, QuietAt, AlwaysAt, AimsJoints, Sent;
    forall i: nat, j: nat | (t.Running? && j in t.enabled ==> i in t.enabled) && TogetherJoints(w, i, j, joints)
      ensures TogetherJoints(Sent(w, cmd), i, j, joints)
    {
      var a, b := joints[i], joints[j];
      if t.Idles() {
        IdleIsQuiet(cmd, b.chain, b.motor);
      } else if t.Arming? {
        assert EnablesJoint(cmd, a);
      } else {
        assert AsksOnly(cmd, a, i in t.enabled) && AsksOnly(cmd, b, j in t.enabled);
      }
      TogetherSent(w, cmd, a.chain, a.motor, b.chain, b.motor);
    }
  }

  lemma SendingKeepsAim(w: World, cmd: Command, joints: seq<Wiring>, hold: seq<i16>)
    requires AimsJoints(cmd, joints, hold)
    ensures KeepsAim(w, Sent(w, cmd), joints, hold)
  {
    hide AimedSlot, AimsAt;
    forall from: nat, j | AimedJoints(w, from, joints, hold) && 0 <= j < |joints| && j < |hold|
      ensures AimedSlot(Sent(w, cmd), from, joints[j].chain, joints[j].motor, hold[j])
    {
      AimedSent(w, cmd, from, joints[j].chain, joints[j].motor, hold[j]);
    }
  }

  lemma CommandGoes(w: World, cmd: Command, t: Traffic, joints: seq<Wiring>, hold: seq<i16>)
    requires Sound(w) && Obeys(cmd, t, joints, hold)
    ensures Evolves(w, Sent(w, cmd), t, joints, hold)
  {
    hide AllNoReset, FaultsSince, Idle, AsksNoReset, EnablesJoint, AsksOnly, AimsJoints, KeepsSettled,
      KeepsUnarmed, KeepsTogether, KeepsAim, KeepsReadying, KeepsLaunched, Grows, Carriable;
    SendingKeepsArming(w, cmd, t, joints, hold);
    SendingKeepsTogether(w, cmd, t, joints, hold);
    if t.Aims() {
      SendingKeepsAim(w, cmd, joints, hold);
    }
    if t.Idles() {
      SendingKeepsQuiet(w, cmd);
    }
    if !t.Resetting? && AllNoReset(w) {
      NoResetSent(w, cmd);
      SentFaultsSince(w, cmd);
    }
    GrowsChain(w.master.chains, w.master.chains, w.master.chains);
  }

  lemma IdleAimsJoints(cmd: Command, joints: seq<Wiring>, hold: seq<i16>)
    requires Idle(cmd)
    ensures AimsJoints(cmd, joints, hold)
  {
    hide Idle, AimsAt, QuietAt;
    forall j | 0 <= j < |joints| && j < |hold|
      ensures AimsAt(cmd, joints[j].chain, joints[j].motor, hold[j])
    {
      IdleIsQuiet(cmd, joints[j].chain, joints[j].motor);
      QuietAimsAnywhere(cmd, joints[j].chain, joints[j].motor, hold[j]);
    }
  }

  // ---- Between sessions ----

  /** Nothing in the mail would arm a joint, and nothing has armed one since the report `from`. */
  ghost predicate SettledJoints(w: World, from: nat, joints: seq<Wiring>) {
    forall j :: 0 <= j < |joints| ==> SettledJoint(w, from, joints[j])
  }

  ghost predicate SettledJoint(w: World, from: nat, j: Wiring) {
    Settled(w, from, j.chain, j.motor)
  }

  lemma SettledLater(w: World, from: nat, later: nat, joints: seq<Wiring>)
    requires SettledJoints(w, from, joints) && from <= later
    ensures SettledJoints(w, later, joints)
  {
    hide QuietMail, ArmedIn;
    forall j | 0 <= j < |joints|
      ensures SettledJoint(w, later, joints[j])
    {
      assert SettledJoint(w, from, joints[j]);
    }
  }

  lemma SettledAreTogether(w: World, from: nat, joints: seq<Wiring>)
    requires SettledJoints(w, from, joints)
    ensures forall i, j :: 0 <= i < |joints| && 0 <= j < |joints| ==> TogetherJoints(w, i, j, joints)
  {
    hide StaysUnarmed, QuietAt, Live;
    forall i, j | 0 <= i < |joints| && 0 <= j < |joints|
      ensures TogetherJoints(w, i, j, joints)
    {
      assert SettledJoint(w, from, joints[j]);
    }
  }

  // ---- Reports the host may be handed ----

  lemma ReportsCarriable(w: World, i: nat)
    requires Sound(w) && i < |w.tele|
    ensures Carriable(w.tele[i].chains)
  {
    CarriableAlike(w.master.chains, w.tele[i].chains);
  }

  function Report(w: World, i: nat): (t: RobotTelemetry)
    requires Sound(w) && i < |w.tele|
    ensures FixedSize(t)
  {
    ReportsCarriable(w, i);
    View(w.tele[i])
  }

  /** The targets are what each joint's motor reported, DISABLED and heard from within the limit. */
  predicate HoldsFrom(t: RobotTelemetry, joints: seq<Wiring>, hold: seq<i16>, maxAgeUs: nat)
    requires FixedSize(t) && AllPlacedJoints(joints)
  {
    && |hold| == |joints|
    && forall j :: 0 <= j < |joints| ==>
      && ReportsFresh(MotorOf(t, joints[j]), Disabled, maxAgeUs)
      && hold[j] == MotorOf(t, joints[j]).value.pos
  }

  /** In the robot itself: the motor wired to each joint stood DISABLED at exactly its target, and
      its drive had been heard from within the limit. */
  ghost predicate StoodAt(s: State, joints: seq<Wiring>, hold: seq<i16>, maxAgeUs: nat) {
    && |hold| == |joints|
    && forall j :: 0 <= j < |joints| ==> OneStandsAt(s, joints[j], hold[j], maxAgeUs)
  }

  ghost predicate OneStandsAt(s: State, w: Wiring, h: i16, maxAgeUs: nat) {
    exists c: nat :: StandsAt(s, c, w, h, maxAgeUs)
  }

  predicate StandsAt(s: State, c: nat, w: Wiring, h: i16, maxAgeUs: nat) {
    && Exists(s, c, w.motor) && s.chains[c].id == w.chain
    && MotorAt(s, c, w.motor).driveState.Disabled? && MotorAt(s, c, w.motor).pos == h
    && ReportedAge(MotorAt(s, c, w.motor)) as nat * 1000 <= maxAgeUs
  }

  lemma HoldsAreTrue(s: State, joints: seq<Wiring>, hold: seq<i16>, maxAgeUs: nat)
    requires Carriable(s.chains) && AllPlacedJoints(joints)
    requires HoldsFrom(View(s), joints, hold, maxAgeUs)
    ensures StoodAt(s, joints, hold, maxAgeUs)
  {
    hide View, Found, ReportedAge, Carriable;
    forall j | 0 <= j < |joints|
      ensures OneStandsAt(s, joints[j], hold[j], maxAgeUs)
    {
      assert joints[j] in joints;
      var c := FoundExists(s, joints[j].chain, joints[j].motor);
      StateCodesDistinct(MotorAt(s, c, joints[j].motor).driveState, Disabled);
      assert StandsAt(s, c, joints[j], hold[j], maxAgeUs);
    }
  }

  /** A motor standing DISABLED is the only one its joint has, so the joint's motor is unarmed. */
  lemma StandingIsUnarmed(s: State, joints: seq<Wiring>, hold: seq<i16>, maxAgeUs: nat, j: nat)
    requires Carriable(s.chains) && StoodAt(s, joints, hold, maxAgeUs) && j < |joints|
    ensures !ArmedIn(s, joints[j].chain, joints[j].motor)
  {
    hide ReportedAge;
    assert OneStandsAt(s, joints[j], hold[j], maxAgeUs);
    var d: nat :| StandsAt(s, d, joints[j], hold[j], maxAgeUs);
    OffIsUnarmed(s, Slot(joints[j].chain, d, joints[j].motor, 0, 0));
  }

  /** Each joint's motor, as the report found it. */
  ghost predicate TakenAll(s: State, joints: seq<Wiring>, slots: seq<Slot>) {
    && |slots| == |joints|
    && forall j :: 0 <= j < |joints| ==> IsOf(slots[j], joints, j) && TakenFrom(s, slots[j])
  }

  lemma {:induction false} TakeAll(s: State, joints: seq<Wiring>, hold: seq<i16>, maxAgeUs: nat)
    returns (slots: seq<Slot>)
    requires StoodAt(s, joints, hold, maxAgeUs)
    ensures TakenAll(s, joints, slots)
    decreases |joints|
  {
    hide ReportedAge;
    if joints == [] {
      slots := [];
    } else {
      var n := |joints| - 1;
      assert forall j :: 0 <= j < n ==> joints[..n][j] == joints[j] && hold[..n][j] == hold[j];
      assert OneStandsAt(s, joints[n], hold[n], maxAgeUs);
      var c: nat :| StandsAt(s, c, joints[n], hold[n], maxAgeUs);
      var m := MotorAt(s, c, joints[n].motor);
      var before := TakeAll(s, joints[..n], hold[..n], maxAgeUs);
      slots := before + [Slot(joints[n].chain, c, joints[n].motor, m.reboots, m.spurious)];
      forall j | 0 <= j < |joints|
        ensures IsOf(slots[j], joints, j) && TakenFrom(s, slots[j])
      {
        assert j < n ==> IsOf(before[j], joints[..n], j);
      }
    }
  }

  /** From a settled world and a report since that found every joint standing DISABLED: each is ready
      to be armed, aimed at whatever target is chosen for it. */
  lemma SettledAreReadying(
    w: World, from: nat, at: nat, joints: seq<Wiring>, hold: seq<i16>, maxAgeUs: nat, slots: seq<Slot>)
    requires Sound(w) && SettledJoints(w, from, joints) && from <= at < |w.tele| && AllPlacedJoints(joints)
    requires StoodAt(w.tele[at], joints, hold, maxAgeUs) && TakenAll(w.tele[at], joints, slots)
    ensures forall j :: 0 <= j < |joints| ==> ReadyingJoint(w, at, slots[j], j, joints, true)
    ensures AimedJoints(w, at, joints, hold)
  {
    hide Settled, AimedSlot, Readying, ArmedIn, StoodAt, Sound, TakenFrom;
    ReportsCarriable(w, at);
    forall j | 0 <= j < |joints|
      ensures ReadyingJoint(w, at, slots[j], j, joints, true)
      ensures j < |hold| ==> AimedSlot(w, at, joints[j].chain, joints[j].motor, hold[j])
    {
      assert joints[j] in joints && SettledJoint(w, from, joints[j]);
      StandingIsUnarmed(w.tele[at], joints, hold, maxAgeUs, j);
      SettledIsReadying(w, from, at, slots[j]);
      if j < |hold| {
        SettledIsAimed(w, from, at, joints[j].chain, joints[j].motor, hold[j]);
      }
    }
  }

  /** A joint being readied, and reported ENABLED, was armed by what was sent to ready it; and behind
      that there is no RESET. */
  lemma ReportedEnabledIsLaunched(
    w: World, at: nat, shown: nat, joints: seq<Wiring>, x: Slot, j: nat, enabled: set<nat>)
    requires Sound(w) && ReadyingJoint(w, at, x, j, joints, true) && at <= shown < |w.tele| && j in enabled
    requires AllPlacedJoints(joints) && Reports(MotorOf(Report(w, shown), joints[j]), Enabled)
    ensures LaunchedJoint(w, shown, x, j, joints, enabled) && AllNoReset(w)
  {
    hide View, MotorOf, ArmedIn, AllNoReset, Sound, Launched, AllFollow;
    ReportsCarriable(w, shown);
    assert joints[j] in joints;
    EnabledIsArmed(w.tele[shown], joints[j]);
    OffIsUnarmedAt(w, shown, x);
    LaunchedHasNoReset(w, shown, x);
  }

  lemma LaunchedHasNoReset(w: World, from: nat, x: Slot)
    requires Launched(w, from, x, true)
    ensures AllNoReset(w)
  {
    hide AllNoReset, Ordered, Parked;
  }

  /** A joint reported DISABLED stands unarmed and not in FAULT. */
  lemma ReportedOff(s: State, x: Slot, joints: seq<Wiring>, j: nat)
    requires Carriable(s.chains) && AllPlacedJoints(joints) && IsOf(x, joints, j) && There(s, x)
    requires joints[j] in joints && Reports(MotorOf(View(s), joints[j]), Disabled)
    ensures OffIn(s, x) && !The(s, x).driveState.Fault?
  {
    hide View, ReportedAge;
    var c := FoundExists(s, joints[j].chain, joints[j].motor);
    StateCodesDistinct(MotorAt(s, c, joints[j].motor).driveState, Disabled);
  }

  /** The end of a session. Once any one joint i, undisturbed since it was armed, has been reported
      DISABLED, nothing that can still be acted on would arm joint j, asked for only together with it. */
  lemma OneOffQuiets(
    w: World, from: nat, seen: nat, joints: seq<Wiring>, x: Slot, i: nat, j: nat)
    requires Sound(w) && AllPlacedJoints(joints) && i < |joints| && j < |joints|
    requires LaunchedJoint(w, from, x, i, joints, {}) && TogetherJoints(w, i, j, joints)
    requires UndisturbedIn(w, x)
    requires from <= seen < |w.tele| && Reports(MotorOf(Report(w, seen), joints[i]), Disabled)
    ensures QuietMail(w, joints[j].chain, joints[j].motor)
  {
    hide View, MotorOf, Kept, OffForGood, Sound, Live, QuietAt;
    ReportsCarriable(w, seen);
    assert joints[i] in joints;
    ReportedOff(w.tele[seen], x, joints, i);
    OffAndHeardIsQuiet(w, from, x, seen);
  }

  /** With the host lost it is enough that one joint was launched: no RESET is left to be heard. */
  lemma LostQuiets(w: World, from: nat, x: Slot, i: nat, joints: seq<Wiring>, enabled: set<nat>)
    requires LaunchedJoint(w, from, x, i, joints, enabled) && w.master.hostLost
    ensures forall id: byte, k: nat :: QuietMail(w, id, k)
  {
    hide Ordered, Parked, OffForGood, QuietMail, AllNoReset;
    forall id: byte, k: nat
      ensures QuietMail(w, id, k)
    {
      NothingIsHeard(w, id, k);
    }
  }

  ghost predicate AllQuiet(w: World, joints: seq<Wiring>) {
    forall j :: 0 <= j < |joints| ==> QuietMail(w, joints[j].chain, joints[j].motor)
  }

  /** A launched, undisturbed joint that nothing can arm any more is settled from the report that
      showed it armed. */
  lemma QuietIsSettled(w: World, from: nat, x: Slot, j: nat, joints: seq<Wiring>)
    requires Sound(w) && LaunchedJoint(w, from, x, j, joints, {}) && UndisturbedIn(w, x)
    requires QuietMail(w, joints[j].chain, joints[j].motor)
    ensures SettledJoint(w, from, joints[j])
  {
    hide Launched, QuietMail, StaysUnarmed, Sound;
    LaunchedStaysUnarmed(w, from, x, false);
  }

  /** And any joint, from the reports still to come. */
  lemma AllQuietIsSettled(w: World, joints: seq<Wiring>)
    requires AllQuiet(w, joints)
    ensures SettledJoints(w, |w.tele|, joints)
  {
    hide QuietMail, Settled;
    forall j | 0 <= j < |joints|
      ensures SettledJoint(w, |w.tele|, joints[j])
    {
      QuietMailIsSettled(w, joints[j].chain, joints[j].motor);
    }
  }

  ghost predicate UndisturbedIn(w: World, x: Slot) {
    There(w.master, x) && Undisturbed(The(w.master, x), x)
  }
}
