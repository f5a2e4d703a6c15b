/** Where each joint lives on the wire, and how its angle relates to the wire's. */
module JointWiring {
  import opened Wrappers
  import opened Bits
  import opened Telemetry
  import opened Numbers
  import opened FixedPoint
  import opened BatchTypes

  const MAX_JOINTS := MAX_CHAINS * MAX_MOTORS

  datatype Wiring = Wiring(chain: byte, motor: byte, directionSign: int, zeroOffset: Num)

  datatype ChainLayout = ChainLayout(chainId: byte, motorSlots: byte)

  datatype Layout = Layout(joints: seq<Wiring>, chains: seq<ChainLayout>)

  datatype LayoutError =
    | NoJoints | TooManyJoints
    | ChainBeyond(joint: nat) | MotorBeyond(joint: nat) | BadSign(joint: nat)
    | OffsetNotFinite(joint: nat) | SlotTaken(joint: nat)

  datatype Result = Ok(layout: Layout) | Err(error: LayoutError)

  // ---- What a layout is ----

  predicate Placed(w: Wiring) {
    && w.chain < MAX_CHAINS && w.motor < MAX_MOTORS
    && (w.directionSign == 1 || w.directionSign == -1) && w.zeroOffset.IsFinite()
  }

  predicate SameSlot(a: Wiring, b: Wiring) {
    a.chain == b.chain && a.motor == b.motor
  }

  predicate Distinct(joints: seq<Wiring>) {
    forall i, j :: 0 <= i < j < |joints| ==> !SameSlot(joints[i], joints[j])
  }

  predicate Wired(joints: seq<Wiring>) {
    && 0 < |joints| <= MAX_JOINTS
    && (forall i :: 0 <= i < |joints| ==> Placed(joints[i]))
    && Distinct(joints)
  }

  /** The first complaint about joint i, given that every joint before it was accepted. */
  function Complaint(joints: seq<Wiring>, i: nat): Option<LayoutError>
    requires i < |joints|
  {
    var w := joints[i];
    if w.chain >= MAX_CHAINS then Some(ChainBeyond(i))
    else if w.motor >= MAX_MOTORS then Some(MotorBeyond(i))
    else if w.directionSign != 1 && w.directionSign != -1 then Some(BadSign(i))
    else if !w.zeroOffset.IsFinite() then Some(OffsetNotFinite(i))
    else if exists j :: 0 <= j < i && SameSlot(joints[j], w) then Some(SlotTaken(i))
    else None
  }

  /** No joint before i draws a complaint. */
  predicate CleanBefore(joints: seq<Wiring>, i: nat)
    requires i <= |joints|
  {
    forall j :: 0 <= j < i ==> Complaint(joints, j).None?
  }

  /** The error is about the first joint that draws one. */
  predicate FirstComplaint(joints: seq<Wiring>, error: LayoutError) {
    exists i :: 0 <= i < |joints| && Complaint(joints, i) == Some(error) && CleanBefore(joints, i)
  }

  /** A chain's announced slot count is one more than the highest motor wired on it. */
  predicate CountsSlots(joints: seq<Wiring>, c: ChainLayout) {
    && (forall i :: 0 <= i < |joints| && joints[i].chain == c.chainId ==> joints[i].motor < c.motorSlots)
    && (exists i :: 0 <= i < |joints| && joints[i].chain == c.chainId && joints[i].motor == c.motorSlots - 1)
  }

  predicate Ascending(chains: seq<ChainLayout>) {
    forall a, b :: 0 <= a < b < |chains| ==> chains[a].chainId < chains[b].chainId
  }

  predicate Announces(chains: seq<ChainLayout>, w: Wiring) {
    exists c :: 0 <= c < |chains| && chains[c].chainId == w.chain && w.motor < chains[c].motorSlots
  }

  /** The layout sends distinct joints to distinct slots, each below its chain's announced count,
      and announces exactly the chains that are wired, in strictly ascending order. */
  predicate ValidLayout(l: Layout) {
    && Wired(l.joints)
    && |l.chains| <= MAX_CHAINS
    && Ascending(l.chains)
    && (forall c :: 0 <= c < |l.chains| ==>
      l.chains[c].chainId < MAX_CHAINS && CountsSlots(l.joints, l.chains[c]))
    && (forall i :: 0 <= i < |l.joints| ==> Announces(l.chains, l.joints[i]))
  }

  method MakeLayout(joints: seq<Wiring>) returns (r: Result)
    ensures r.Ok? <==> Wired(joints)
    ensures r.Ok? ==> r.layout.joints == joints && ValidLayout(r.layout)
    ensures r.Err? ==>
      || (r.error.NoJoints? && joints == [])
      || (r.error.TooManyJoints? && |joints| > MAX_JOINTS)
      || (|joints| <= MAX_JOINTS && FirstComplaint(joints, r.error))
  {
    if joints == [] {
      return Err(NoJoints);
    }
    if |joints| > MAX_JOINTS {
      return Err(TooManyJoints);
    }
    var taken: set<(byte, byte)> := {};
    var slots: seq<byte> := [0, 0, 0, 0];
    for i := 0 to |joints|
      invariant |slots| == MAX_CHAINS
      invariant CleanBefore(joints, i)
      invariant IsTaken(taken, joints, i)
      invariant SlotsOf(slots, joints, i)
    {
      hide IsTaken, SlotsOf, Complaint, CleanBefore, Wired, Placed;
      var error := CheckJoint(joints, i, taken);
      if error.Some? {
        ComplaintRefuses(joints, i);
        return Err(error.value);
      }
      NoComplaint(joints, i);
      CleanExtends(joints, i);
      taken, slots := TakeSlot(joints, i, taken, slots);
    }
    hide IsTaken, SlotsOf, Wired, CleanBefore;
    AllPlaced(joints);
    var chains := CollectChains(joints, slots);
    r := Ok(Layout(joints, chains));
  }

  ghost predicate IsTaken(taken: set<(byte, byte)>, joints: seq<Wiring>, i: nat)
    requires i <= |joints|
  {
    forall c, m :: (c, m) in taken <==> exists j :: 0 <= j < i && joints[j].chain == c && joints[j].motor == m
  }

  /** The counts so far: above every motor seen on the chain, and reached by one of them. */
  ghost predicate SlotsOf(slots: seq<byte>, joints: seq<Wiring>, i: nat)
    requires i <= |joints| && |slots| == MAX_CHAINS
  {
    && (forall j :: 0 <= j < i ==> Placed(joints[j]) && joints[j].motor < slots[joints[j].chain])
    && (forall c: byte :: c < MAX_CHAINS && slots[c] > 0 ==>
      exists j :: 0 <= j < i && joints[j].chain == c && joints[j].motor == slots[c] - 1)
  }

  method CheckJoint(joints: seq<Wiring>, i: nat, taken: set<(byte, byte)>)
    returns (error: Option<LayoutError>)
    requires i < |joints| && IsTaken(taken, joints, i)
    ensures error == Complaint(joints, i)
  {
    var w := joints[i];
    if w.chain >= MAX_CHAINS {
      return Some(ChainBeyond(i));
    }
    if w.motor >= MAX_MOTORS {
      return Some(MotorBeyond(i));
    }
    if w.directionSign != 1 && w.directionSign != -1 {
      return Some(BadSign(i));
    }
    if !w.zeroOffset.IsFinite() {
      return Some(OffsetNotFinite(i));
    }
    if (w.chain, w.motor) in taken {
      return Some(SlotTaken(i));
    }
    return None;
  }

  method TakeSlot(joints: seq<Wiring>, i: nat, taken: set<(byte, byte)>, slots: seq<byte>)
    returns (taken': set<(byte, byte)>, slots': seq<byte>)
    requires i < |joints| && |slots| == MAX_CHAINS && Placed(joints[i])
    requires IsTaken(taken, joints, i) && SlotsOf(slots, joints, i)
    ensures |slots'| == MAX_CHAINS
    ensures IsTaken(taken', joints, i + 1) && SlotsOf(slots', joints, i + 1)
  {
    var w := joints[i];
    taken' := taken + {(w.chain, w.motor)};
    var used: byte := w.motor + 1;
    slots' := slots[w.chain := if slots[w.chain] < used then used else slots[w.chain]];
    forall c: byte | c < MAX_CHAINS && slots'[c] > 0
      ensures exists j :: 0 <= j < i + 1 && joints[j].chain == c && joints[j].motor == slots'[c] - 1
    {
      if slots'[c] == slots[c] {
        var j :| 0 <= j < i && joints[j].chain == c && joints[j].motor == slots[c] - 1;
      } else {
        assert joints[i].chain == c && joints[i].motor == slots'[c] - 1;
      }
    }
  }

  lemma ComplaintRefuses(joints: seq<Wiring>, i: nat)
    requires i < |joints| && Complaint(joints, i).Some?
    ensures !Wired(joints)
  {
  }

  lemma NoComplaint(joints: seq<Wiring>, i: nat)
    requires i < |joints| && Complaint(joints, i).None?
    ensures Placed(joints[i]) && forall j :: 0 <= j < i ==> !SameSlot(joints[j], joints[i])
  {
  }

  lemma CleanExtends(joints: seq<Wiring>, i: nat)
    requires i < |joints| && CleanBefore(joints, i) && Complaint(joints, i).None?
    ensures CleanBefore(joints, i + 1)
  {
    hide Complaint;
  }

  lemma AllPlaced(joints: seq<Wiring>)
    requires 0 < |joints| <= MAX_JOINTS && CleanBefore(joints, |joints|)
    ensures Wired(joints)
  {
    forall i, j | 0 <= i < j < |joints|
      ensures !SameSlot(joints[i], joints[j])
    {
      NoComplaint(joints, j);
    }
    forall j | 0 <= j < |joints|
      ensures Placed(joints[j])
    {
      NoComplaint(joints, j);
    }
  }

  predicate AnnouncesBelow(chains: seq<ChainLayout>, joints: seq<Wiring>, chain: nat) {
    forall j :: 0 <= j < |joints| && joints[j].chain < chain ==> Announces(chains, joints[j])
  }

  lemma AnnounceOne(chains: seq<ChainLayout>, c: ChainLayout, joints: seq<Wiring>)
    requires AnnouncesBelow(chains, joints, c.chainId) && CountsSlots(joints, c)
    ensures AnnouncesBelow(chains + [c], joints, c.chainId + 1)
  {
    var longer := chains + [c];
    forall j | 0 <= j < |joints| && joints[j].chain < c.chainId + 1
      ensures Announces(longer, joints[j])
    {
      if joints[j].chain < c.chainId {
        assert Announces(chains, joints[j]);
        var k :| 0 <= k < |chains| && chains[k].chainId == joints[j].chain &&
          joints[j].motor < chains[k].motorSlots;
        assert longer[k] == chains[k];
      } else {
        assert longer[|chains|] == c;
      }
    }
  }

  lemma AnnounceNone(chains: seq<ChainLayout>, chain: byte, joints: seq<Wiring>)
    requires AnnouncesBelow(chains, joints, chain)
    requires forall j :: 0 <= j < |joints| ==> joints[j].chain != chain
    ensures AnnouncesBelow(chains, joints, chain + 1)
  {
  }

  lemma SlotsCount(slots: seq<byte>, joints: seq<Wiring>, chain: byte)
    requires |slots| == MAX_CHAINS && chain < MAX_CHAINS && Wired(joints)
    requires SlotsOf(slots, joints, |joints|)
    ensures slots[chain] > 0 ==> CountsSlots(joints, ChainLayout(chain, slots[chain]))
    ensures slots[chain] == 0 ==> forall j :: 0 <= j < |joints| ==> joints[j].chain != chain
  {
    hide Distinct;
  }

  predicate CountsAll(chains: seq<ChainLayout>, joints: seq<Wiring>, chain: nat) {
    forall c :: 0 <= c < |chains| ==> chains[c].chainId < chain && CountsSlots(joints, chains[c])
  }

  method CollectChains(joints: seq<Wiring>, slots: seq<byte>) returns (chains: seq<ChainLayout>)
    requires |slots| == MAX_CHAINS && Wired(joints) && SlotsOf(slots, joints, |joints|)
    ensures ValidLayout(Layout(joints, chains))
  {
    hide Distinct, SlotsOf, CountsSlots, Announces, Wired;
    chains := [];
    assert AnnouncesBelow(chains, joints, 0);
    for chain := 0 to MAX_CHAINS
      invariant |chains| <= chain
      invariant Ascending(chains)
      invariant CountsAll(chains, joints, chain)
      invariant AnnouncesBelow(chains, joints, chain)
    {
      hide AnnouncesBelow;
      SlotsCount(slots, joints, chain);
      if slots[chain] > 0 {
        AnnounceOne(chains, ChainLayout(chain, slots[chain]), joints);
        chains := chains + [ChainLayout(chain, slots[chain])];
      } else {
        AnnounceNone(chains, chain, joints);
      }
    }
    Collected(joints, chains);
  }

  lemma Collected(joints: seq<Wiring>, chains: seq<ChainLayout>)
    requires Wired(joints) && |chains| <= MAX_CHAINS && Ascending(chains)
    requires CountsAll(chains, joints, MAX_CHAINS) && AnnouncesBelow(chains, joints, MAX_CHAINS)
    ensures ValidLayout(Layout(joints, chains))
  {
    hide CountsSlots, Announces, Distinct;
    forall j | 0 <= j < |joints|
      ensures joints[j].chain < MAX_CHAINS
    {
      assert Placed(joints[j]);
    }
  }

  // ---- Angles ----

  function WirePosition(w: Wiring, joint: Num): Num
    requires Placed(w)
  {
    Plus(WithSign(w.directionSign == 1, joint), w.zeroOffset.r)
  }

  function JointPosition(w: Wiring, wire: real): real
    requires Placed(w)
  {
    w.directionSign as real * (wire - w.zeroOffset.r)
  }

  function SignedValue(w: Wiring, value: real): real {
    w.directionSign as real * value
  }

  function ToSetpoint(w: Wiring, c: JointCommand): MitSetpoint
    requires Placed(w)
  {
    var positive := w.directionSign == 1;
    MitSetpoint(WirePosition(w, c.position), WithSign(positive, c.velocity), c.stiffness, c.damping,
                WithSign(positive, c.effort))
  }

  datatype EnvelopeError = PositionRange | VelocityRange | TorqueRange | StiffnessRange | DampingRange

  predicate Fits(value: Num, limit: real) {
    value.IsFinite() && AtMost(Abs(value), Real(limit))
  }

  /** The host's minimum and maximum of two doubles: with a NaN second, the first. */
  function MinOf(a: Num, b: Num): Num { if Less(b, a) then b else a }
  function MaxOf(a: Num, b: Num): Num { if Less(a, b) then b else a }

  function CheckEnvelope(w: Wiring, e: Envelope): Option<EnvelopeError>
    requires Placed(w)
  {
    var a := WirePosition(w, e.positionMin);
    var b := WirePosition(w, e.positionMax);
    if !(AtMost(Real(-PI), MinOf(a, b)) && AtMost(MaxOf(a, b), Real(PI))) then Some(PositionRange)
    else if !Fits(e.velocityMax, 32767.0 / VEL_SCALE) then Some(VelocityRange)
    else if !Fits(e.torquePeak, 32767.0 / TAU_SCALE) then Some(TorqueRange)
    else if !Fits(e.stiffnessMax, 65535.0 / KP_SCALE) then Some(StiffnessRange)
    else if !Fits(e.dampingMax, 65535.0 / KD_SCALE) then Some(DampingRange)
    else None
  }

  /** Every limit a number, and both ends of the position range inside the home frame. */
  predicate EnvelopeFits(w: Wiring, e: Envelope)
    requires Placed(w)
  {
    && Fits(WirePosition(w, e.positionMin), PI) && Fits(WirePosition(w, e.positionMax), PI)
    && Fits(e.velocityMax, 32767.0 / VEL_SCALE) && Fits(e.torquePeak, 32767.0 / TAU_SCALE)
    && Fits(e.stiffnessMax, 65535.0 / KP_SCALE) && Fits(e.dampingMax, 65535.0 / KD_SCALE)
  }

  /** The check accepts exactly the envelopes that fit, once a NaN upper position limit, which its
      minimum and maximum silently drop, is excluded. */
  lemma CheckEnvelopeExact(w: Wiring, e: Envelope)
    requires Placed(w) && !e.positionMax.NaN?
    ensures CheckEnvelope(w, e).None? <==> EnvelopeFits(w, e)
  {
  }

  lemma NanUpperLimitPasses(w: Wiring, e: Envelope)
    requires Placed(w) && e.positionMax.NaN? && EnvelopeFits(w, e.(positionMax := e.positionMin))
    ensures CheckEnvelope(w, e).None? && !EnvelopeFits(w, e)
  {
  }

  /** A command the safety kernel would pass: inside the envelope, with non-negative gains inside
      theirs. */
  predicate InEnvelope(c: JointCommand, e: Envelope) {
    && c.position.IsFinite() && c.velocity.IsFinite() && c.effort.IsFinite()
    && c.stiffness.IsFinite() && c.damping.IsFinite()
    && AtMost(e.positionMin, c.position) && AtMost(c.position, e.positionMax)
    && AtMost(Abs(c.velocity), e.velocityMax) && AtMost(Abs(c.effort), e.torquePeak)
    && AtMost(Real(0.0), c.stiffness) && AtMost(c.stiffness, e.stiffnessMax)
    && AtMost(Real(0.0), c.damping) && AtMost(c.damping, e.dampingMax)
  }

  /** Half an LSB clear of the limits of the wire's types, in the wire's own sign. */
  predicate HasHeadroom(w: Wiring, c: JointCommand)
    requires c.velocity.IsFinite() && c.effort.IsFinite() && c.stiffness.IsFinite() && c.damping.IsFinite()
  {
    && -32767.5 <= SignedValue(w, c.velocity.r) * VEL_SCALE <= 32766.5
    && -32767.5 <= SignedValue(w, c.effort.r) * TAU_SCALE <= 32766.5
    && c.stiffness.r * KP_SCALE <= 65534.5 && c.damping.r * KD_SCALE <= 65534.5
  }

  lemma PositionStaysHome(w: Wiring, e: Envelope, c: JointCommand)
    requires Placed(w) && EnvelopeFits(w, e) && InEnvelope(c, e)
    ensures Fits(WirePosition(w, c.position), PI)
    ensures -32767.5 <= WirePosition(w, c.position).r * POS_SCALE <= 32766.5
  {
  }

  lemma RepresentableFields(s: MitSetpoint)
    ensures EncodeTuple(s).representable <==>
      && s.position.IsFinite() && -32767.5 <= s.position.r * POS_SCALE <= 32766.5
      && s.velocity.IsFinite() && -32767.5 <= s.velocity.r * VEL_SCALE <= 32766.5
      && s.effort.IsFinite() && -32767.5 <= s.effort.r * TAU_SCALE <= 32766.5
      && s.stiffness.IsFinite() && -0.5 <= s.stiffness.r * KP_SCALE <= 65534.5
      && s.damping.IsFinite() && -0.5 <= s.damping.r * KD_SCALE <= 65534.5
      && AtMost(Abs(s.position), Real(PI))
  {
    hide EncodeI16, EncodeU16, AtMost, Abs;
    EncodeI16Saturation(s.position, POS_SCALE);
    EncodeI16Saturation(s.velocity, VEL_SCALE);
    EncodeI16Saturation(s.effort, TAU_SCALE);
    EncodeU16Saturation(s.stiffness, KP_SCALE);
    EncodeU16Saturation(s.damping, KD_SCALE);
  }

  /** Within half a unit of the wire's field. */
  predicate Near(raw: int, x: real) {
    -0.5 <= raw as real - x <= 0.5
  }

  lemma SetpointFields(s: MitSetpoint)
    requires EncodeTuple(s).representable
    requires s.position.IsFinite() && s.velocity.IsFinite() && s.effort.IsFinite()
    requires s.stiffness.IsFinite() && s.damping.IsFinite()
    ensures var t := EncodeTuple(s);
      && Near(t.pos, 10000.0 * s.position.r) && Near(t.vel, 100.0 * s.velocity.r)
      && Near(t.tauFf, 100.0 * s.effort.r)
      && Near(t.kp, 10.0 * s.stiffness.r) && Near(t.kd, 100.0 * s.damping.r)
  {
    hide EncodeI16, EncodeU16, AtMost, Abs;
    EncodeI16Rounds(s.position, POS_SCALE);
    EncodeI16Rounds(s.velocity, VEL_SCALE);
    EncodeI16Rounds(s.effort, TAU_SCALE);
    EncodeU16Rounds(s.stiffness, KP_SCALE);
    EncodeU16Rounds(s.damping, KD_SCALE);
  }

  /** What a representable command is on the wire: every field its own quantity, in the wire's units of
      0.1 mrad, 0.01 rad/s, 0.01 Nm, 0.1 Nm/rad and 0.01 Nms/rad, and turned the wire's way round. */
  lemma EncodedFields(w: Wiring, c: JointCommand)
    requires Placed(w) && EncodeTuple(ToSetpoint(w, c)).representable
    ensures c.IsFinite()
    ensures var t := EncodeTuple(ToSetpoint(w, c));
      var turned := if w.directionSign == 1 then 1.0 else -1.0;
      && Near(t.pos, 10000.0 * (turned * c.position.r + w.zeroOffset.r))
      && Near(t.vel, 100.0 * (turned * c.velocity.r)) && Near(t.tauFf, 100.0 * (turned * c.effort.r))
      && Near(t.kp, 10.0 * c.stiffness.r) && Near(t.kd, 100.0 * c.damping.r)
  {
    hide EncodeTuple;
    var s := ToSetpoint(w, c);
    RepresentableFields(s);
    SetpointFields(s);
  }

  /** The wire can carry a command exactly when every quantity keeps half a unit clear of its field's
      range, and the position is an angle of the home frame. */
  lemma RepresentableIs(w: Wiring, c: JointCommand)
    requires Placed(w) && c.IsFinite()
    ensures var turned := if w.directionSign == 1 then 1.0 else -1.0;
      var position := turned * c.position.r + w.zeroOffset.r;
      EncodeTuple(ToSetpoint(w, c)).representable <==>
      && -PI <= position <= PI
      && -327.675 <= turned * c.velocity.r <= 327.665 && -327.675 <= turned * c.effort.r <= 327.665
      && -0.05 <= c.stiffness.r <= 6553.45 && -0.005 <= c.damping.r <= 655.345
  {
    hide EncodeTuple;
    RepresentableFields(ToSetpoint(w, c));
  }

  lemma HomeFrameIsPi()
    ensures 3.14159265358979 < PI < 3.1415926535898
  {
  }

  /** Inside an accepted envelope a command is representable exactly when it has that headroom;
      position always has it. */
  lemma RepresentableExactly(w: Wiring, e: Envelope, c: JointCommand)
    requires Placed(w) && EnvelopeFits(w, e) && InEnvelope(c, e)
    ensures EncodeTuple(ToSetpoint(w, c)).representable <==> HasHeadroom(w, c)
  {
    hide EncodeTuple, EnvelopeFits;
    PositionStaysHome(w, e, c);
    RepresentableFields(ToSetpoint(w, c));
  }

  /** So the check alone does not promise it: a velocity limit exactly at the wire's maximum is
      accepted, and the command at that limit is not representable. */
  lemma AcceptedLimitNotRepresentable(w: Wiring)
    requires w == Wiring(0, 0, 1, Real(0.0))
    ensures var e :=
        Envelope(Real(-1.0), Real(1.0), Real(327.67), Real(10.0), Real(100.0), Real(5.0), Real(1.0));
      var c := JointCommand(Real(0.0), Real(327.67), Real(0.0), Real(0.0), Real(0.0));
      && CheckEnvelope(w, e).None? && InEnvelope(c, e)
      && !EncodeTuple(ToSetpoint(w, c)).representable
  {
  }

  /** A motor that echoes what it was sent reads back, in joint units, within half an LSB of the
      command, for either direction and any offset. */
  lemma EchoReadsBack(w: Wiring, c: JointCommand)
    requires Placed(w) && c.position.IsFinite() && c.velocity.IsFinite() && c.effort.IsFinite()
    requires EncodeTuple(ToSetpoint(w, c)).representable
    ensures var t := EncodeTuple(ToSetpoint(w, c));
      && -0.5 / POS_SCALE <= JointPosition(w, DecodeI16(t.pos, POS_SCALE)) - c.position.r <= 0.5 / POS_SCALE
      && -0.5 / VEL_SCALE <= SignedValue(w, DecodeI16(t.vel, VEL_SCALE)) - c.velocity.r <= 0.5 / VEL_SCALE
      && -0.5 / TAU_SCALE <= SignedValue(w, DecodeI16(t.tauFf, TAU_SCALE)) - c.effort.r <= 0.5 / TAU_SCALE
  {
    hide EncodeI16, EncodeU16, DecodeI16;
    var s := ToSetpoint(w, c);
    DecodeWithinHalfLsb(s.position, POS_SCALE);
    DecodeWithinHalfLsb(s.velocity, VEL_SCALE);
    DecodeWithinHalfLsb(s.effort, TAU_SCALE);
  }
}
