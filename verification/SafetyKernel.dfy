/** The per-cycle gate: every joint's tuple is finite and inside its envelope, or the whole batch
    becomes damping. */
module SafetyKernels {
  import opened Wrappers
  import opened Numbers
  import opened BatchTypes

  datatype Trigger =
    | NoTrigger | NotConfigured | NonFiniteCommand | PositionEnvelope | VelocityEnvelope
    | TorqueEnvelope | SlewLimit | SequenceRejected | TransportFailed | CommandLoss | OperatorStop

  datatype Verdict = Verdict(
    trigger: Trigger, firstOffendingJoint: nat, jointsProjected: nat, projected: bool,
    protectiveStateRequired: bool)

  const ACCEPTED := Verdict(NoTrigger, 0, 0, false, false)

  // ---- One joint ----

  /** No limit of position, velocity or effort is broken. */
  predicate Respects(c: JointCommand, e: Envelope) {
    && !Less(c.position, e.positionMin) && !Less(e.positionMax, c.position)
    && !Less(e.velocityMax, Abs(c.velocity)) && !Less(e.torquePeak, Abs(c.effort))
  }

  /** Inside every limit, as numbers compare. */
  predicate Inside(c: JointCommand, e: Envelope) {
    && AtMost(e.positionMin, c.position) && AtMost(c.position, e.positionMax)
    && AtMost(Abs(c.velocity), e.velocityMax) && AtMost(Abs(c.effort), e.torquePeak)
  }

  predicate LimitsAreNumbers(e: Envelope) {
    !e.positionMin.NaN? && !e.positionMax.NaN? && !e.velocityMax.NaN? && !e.torquePeak.NaN?
  }

  /** Breaking no limit is being inside them all exactly when no limit is NaN: the manifest parser
      lets a NaN limit through, and a NaN limit never trips. */
  lemma RespectsIsInside(c: JointCommand, e: Envelope)
    requires c.IsFinite()
    ensures Inside(c, e) <==> Respects(c, e) && LimitsAreNumbers(e)
  {
  }

  /** The change of feed-forward torque since the last accepted batch is within the slew limit,
      where there is one and time has passed. */
  predicate SlewOk(effort: Num, previous: Num, dt: real, limit: Num)
    requires effort.IsFinite() && previous.IsFinite()
  {
    dt > 0.0 ==> !Less(limit, Real(AbsReal(effort.r - previous.r) / dt))
  }

  function AbsReal(x: real): real {
    if x < 0.0 then -x else x
  }

  function JointTrigger(
    c: JointCommand, e: Envelope, previous: Option<JointCommand>, dt: real): (t: Trigger)
    requires c.IsFinite() && (previous.Some? ==> previous.value.IsFinite())
    ensures t in {NoTrigger, PositionEnvelope, VelocityEnvelope, TorqueEnvelope, SlewLimit}
  {
    if Less(c.position, e.positionMin) || Less(e.positionMax, c.position) then PositionEnvelope
    else if Less(e.velocityMax, Abs(c.velocity)) then VelocityEnvelope
    else if Less(e.torquePeak, Abs(c.effort)) then TorqueEnvelope
    else if previous.Some? && !SlewOk(c.effort, previous.value.effort, dt, e.torqueSlewMax)
    then SlewLimit
    else NoTrigger
  }

  /** What it is to break each limit. */
  predicate Breaks(
    t: Trigger, c: JointCommand, e: Envelope, previous: Option<JointCommand>, dt: real)
  {
    match t
    case PositionEnvelope => Less(c.position, e.positionMin) || Less(e.positionMax, c.position)
    case VelocityEnvelope => Less(e.velocityMax, Abs(c.velocity))
    case TorqueEnvelope => Less(e.torquePeak, Abs(c.effort))
    case SlewLimit =>
      && previous.Some? && dt > 0.0 && c.effort.Real? && previous.value.effort.Real?
      && Less(e.torqueSlewMax, Real(AbsReal(c.effort.r - previous.value.effort.r) / dt))
    case _ => false
  }

  /** Position, velocity, torque and slew, in that order. */
  function Rank(t: Trigger): nat {
    match t
    case PositionEnvelope => 0
    case VelocityEnvelope => 1
    case TorqueEnvelope => 2
    case SlewLimit => 3
    case _ => 4
  }

  /** It broke that limit, and none that comes before it. */
  ghost predicate BreaksFirst(
    t: Trigger, c: JointCommand, e: Envelope, previous: Option<JointCommand>, dt: real)
  {
    Breaks(t, c, e, previous, dt) && forall u :: Breaks(u, c, e, previous, dt) ==> Rank(t) <= Rank(u)
  }

  ghost predicate BreaksNothing(c: JointCommand, e: Envelope, previous: Option<JointCommand>, dt: real) {
    forall u :: !Breaks(u, c, e, previous, dt)
  }

  lemma TriggerIsFirstBroken(c: JointCommand, e: Envelope, previous: Option<JointCommand>, dt: real)
    requires c.IsFinite() && (previous.Some? ==> previous.value.IsFinite())
    ensures var t := JointTrigger(c, e, previous, dt);
      if t.NoTrigger? then BreaksNothing(c, e, previous, dt) else BreaksFirst(t, c, e, previous, dt)
  {
  }

  /** With limits that are numbers, in plain arithmetic. */
  lemma BreaksIs(c: JointCommand, e: Envelope, p: JointCommand, dt: real)
    requires c.IsFinite() && p.IsFinite() && e.positionMin.Real? && e.positionMax.Real? && e.velocityMax.Real?
    requires e.torquePeak.Real? && e.torqueSlewMax.Real?
    ensures Breaks(PositionEnvelope, c, e, Some(p), dt) <==>
      c.position.r < e.positionMin.r || c.position.r > e.positionMax.r
    ensures Breaks(VelocityEnvelope, c, e, Some(p), dt) <==>
      c.velocity.r > e.velocityMax.r || -c.velocity.r > e.velocityMax.r
    ensures Breaks(TorqueEnvelope, c, e, Some(p), dt) <==>
      c.effort.r > e.torquePeak.r || -c.effort.r > e.torquePeak.r
    ensures dt > 0.0 ==>
      (Breaks(SlewLimit, c, e, Some(p), dt) <==>
       c.effort.r - p.effort.r > e.torqueSlewMax.r * dt || p.effort.r - c.effort.r > e.torqueSlewMax.r * dt)
    ensures dt <= 0.0 ==> !Breaks(SlewLimit, c, e, Some(p), dt)
  {
    if dt > 0.0 {
      QuotientExceeds(AbsReal(c.effort.r - p.effort.r), dt, e.torqueSlewMax.r);
    }
  }

  lemma QuotientExceeds(x: real, dt: real, limit: real)
    requires dt > 0.0
    ensures x / dt > limit <==> x > limit * dt
  {
    assert x == x / dt * dt;
    if x / dt > limit {
      assert x / dt * dt > limit * dt;
    } else {
      assert x / dt * dt <= limit * dt;
    }
  }

  // ---- A batch ----

  predicate AllFinite(joints: seq<JointCommand>) {
    forall j :: 0 <= j < |joints| ==> joints[j].IsFinite()
  }

  predicate Damped(joints: seq<JointCommand>) {
    forall j :: 0 <= j < |joints| ==> joints[j] == ZERO_JOINT
  }

  predicate AllRespect(joints: seq<JointCommand>, envelopes: seq<Envelope>) {
    |joints| <= |envelopes| && forall j :: 0 <= j < |joints| ==> Respects(joints[j], envelopes[j])
  }

  /** Within the slew limit of every joint, against the last accepted batch. */
  predicate AllSlewOk(
    joints: seq<JointCommand>, previous: seq<JointCommand>, dt: real, envelopes: seq<Envelope>)
  {
    && |joints| == |previous| <= |envelopes|
    && forall j :: 0 <= j < |joints| ==>
      joints[j].IsFinite() && previous[j].IsFinite() &&
      SlewOk(joints[j].effort, previous[j].effort, dt, envelopes[j].torqueSlewMax)
  }

  /** The batch the kernel passes: finite, within every limit, within the slew of the last. */
  predicate Passes(
    joints: seq<JointCommand>, envelopes: seq<Envelope>, previous: Option<CommandBatch>, now: real)
  {
    && AllFinite(joints) && AllRespect(joints, envelopes)
    && (previous.Some? ==>
      AllSlewOk(joints, previous.value.joints, now - previous.value.stamp, envelopes))
  }

  class SafetyKernel {
    var envelopes: seq<Envelope>
    var configured: bool
    var previous: CommandBatch
    var havePrevious: bool
    var lastTrigger: Trigger
    ghost var accepted: seq<Acceptance>

    ghost predicate Valid()
      reads this
    {
      && AcceptedRun(accepted, envelopes)
      && (havePrevious <==> accepted != [])
      && (havePrevious ==>
        && accepted[|accepted| - 1].command == previous && |previous.joints| == |envelopes|
        && AllFinite(previous.joints))
    }

    constructor ()
      ensures Valid() && !configured && accepted == []
    {
      envelopes, configured, havePrevious, lastTrigger := [], false, false, NotConfigured;
      previous := CommandBatch(0, 0.0, []);
      accepted := [];
    }

    method Configure(jointCount: nat, envelopes: seq<Envelope>) returns (ok: bool)
      requires Valid()
      modifies this
      ensures Valid()
      ensures ok <==> 0 < jointCount == |envelopes| <= MAX_BATCH_JOINTS
      ensures ok ==>
        this.envelopes == envelopes && configured && accepted == [] && lastTrigger.NoTrigger? &&
        Previous().None?
      ensures !ok ==>
        && this.envelopes == old(this.envelopes) && configured == old(configured)
        && accepted == old(accepted) && Previous() == old(Previous())
    {
      if jointCount == 0 || jointCount != |envelopes| {
        return false;
      }
      if jointCount > MAX_BATCH_JOINTS {
        return false;
      }
      this.envelopes, configured, havePrevious, lastTrigger := envelopes, true, false, NoTrigger;
      previous := CommandBatch(0, 0.0, []);
      accepted := [];
      return true;
    }

    ghost function Previous(): Option<CommandBatch>
      reads this`havePrevious, this`previous
    {
      if havePrevious then Some(previous) else None
    }

    /** Passes the batch unchanged, or damps it whole and says which joint broke what. */
    method Project(command: CommandBatch, now: real) returns (result: CommandBatch, verdict: Verdict)
      requires Valid() && (configured ==> |command.joints| == |envelopes|)
      modifies this
      ensures Valid() && envelopes == old(envelopes) && configured == old(configured)
      ensures verdict.protectiveStateRequired == verdict.projected == (verdict != ACCEPTED)
      ensures verdict == ACCEPTED <==>
        configured && Passes(command.joints, envelopes, old(Previous()), now)
      ensures verdict == ACCEPTED ==>
        && verdict == Verdict(NoTrigger, 0, 0, false, false) && result == command
        && havePrevious && previous == command
        && accepted == old(accepted) + [Acceptance(command, now)]
      ensures verdict != ACCEPTED ==>
        && result == command.(joints := result.joints) && |result.joints| == |command.joints|
        && Damped(result.joints) && lastTrigger == verdict.trigger != NoTrigger
        && previous == old(previous) && havePrevious == old(havePrevious) && accepted == old(accepted)
      ensures !configured ==> verdict == Verdict(NotConfigured, 0, |command.joints|, true, true)
      ensures verdict != ACCEPTED && configured ==>
        Blames(verdict, command.joints, envelopes, old(Previous()), now)
    {
      hide JointTrigger, AllSlewOk, AcceptedRun, Breaks;
      if !configured {
        result := EnterProtective(NotConfigured, command);
        return result, Verdict(NotConfigured, 0, |command.joints|, true, true);
      }
      var finite, i := FirstNonFinite(command.joints);
      if !finite {
        result := EnterProtective(NonFiniteCommand, command);
        return result, Verdict(NonFiniteCommand, i, |command.joints|, true, true);
      }
      var before := if havePrevious then Some(previous) else None;
      var trigger, j := FirstTrigger(command.joints, envelopes, before, now);
      if trigger != NoTrigger {
        TriggerFails(command.joints, envelopes, before, now, j);
        TriggerBlames(command.joints, envelopes, before, now, j);
        result := EnterProtective(trigger, command);
        return result, Verdict(trigger, j, |command.joints|, true, true);
      }
      NoTriggerPasses(command.joints, envelopes, before, now);
      ExtendRun(accepted, envelopes, Acceptance(command, now));
      accepted := accepted + [Acceptance(command, now)];
      previous, havePrevious := command, true;
      return command, ACCEPTED;
    }

    /** Zero position, velocity, effort, stiffness and damping on every joint, and the reason. */
    method EnterProtective(trigger: Trigger, command: CommandBatch) returns (result: CommandBatch)
      modifies this`lastTrigger
      ensures lastTrigger == trigger
      ensures |result.joints| == |command.joints| && Damped(result.joints)
      ensures result == command.(joints := result.joints)
    {
      result := ApplyDamping(command);
      lastTrigger := trigger;
    }
  }

  method ApplyDamping(command: CommandBatch) returns (result: CommandBatch)
    ensures |result.joints| == |command.joints| && Damped(result.joints)
    ensures result == command.(joints := result.joints)
  {
    result := command;
    for i := 0 to |command.joints|
      invariant |result.joints| == |command.joints| && Damped(result.joints[..i])
      invariant result == command.(joints := result.joints)
    {
      var joint := result.joints[i];
      joint := joint.(position := Real(0.0), velocity := Real(0.0), effort := Real(0.0));
      joint := joint.(stiffness := Real(0.0), damping := Real(0.0));
      ghost var before := result.joints;
      result := result.(joints := result.joints[i := joint]);
      assert result.joints[..i + 1] == before[..i] + [ZERO_JOINT];
    }
    assert result.joints[..|command.joints|] == result.joints;
  }

  method FirstNonFinite(joints: seq<JointCommand>) returns (finite: bool, i: nat)
    ensures finite <==> AllFinite(joints)
    ensures !finite ==> i < |joints| && !joints[i].IsFinite() && AllFinite(joints[..i])
  {
    finite, i := true, 0;
    while i < |joints|
      invariant i <= |joints| && AllFinite(joints[..i])
    {
      if !joints[i].IsFinite() {
        return false, i;
      }
      i := i + 1;
    }
    assert joints[..|joints|] == joints;
  }

  function PreviousJoint(before: Option<CommandBatch>, j: nat): Option<JointCommand>
    requires before.Some? ==> j < |before.value.joints|
  {
    if before.Some? then Some(before.value.joints[j]) else None
  }

  function SinceStamp(before: Option<CommandBatch>, now: real): real {
    if before.Some? then now - before.value.stamp else 0.0
  }

  predicate Comparable(
    joints: seq<JointCommand>, envelopes: seq<Envelope>, before: Option<CommandBatch>)
  {
    && |joints| == |envelopes| && AllFinite(joints)
    && (before.Some? ==> |before.value.joints| == |joints| && AllFinite(before.value.joints))
  }

  function TriggerAt(
    joints: seq<JointCommand>, envelopes: seq<Envelope>, before: Option<CommandBatch>, now: real,
    j: nat): Trigger
    requires Comparable(joints, envelopes, before) && j < |joints|
  {
    JointTrigger(joints[j], envelopes[j], PreviousJoint(before, j), SinceStamp(before, now))
  }

  method FirstTrigger(
    joints: seq<JointCommand>, envelopes: seq<Envelope>, before: Option<CommandBatch>, now: real)
    returns (trigger: Trigger, j: nat)
    requires Comparable(joints, envelopes, before)
    ensures trigger.NoTrigger? ==> NoTriggerBefore(joints, envelopes, before, now, |joints|)
    ensures !trigger.NoTrigger? ==>
      && j < |joints| && TriggerAt(joints, envelopes, before, now, j) == trigger
      && NoTriggerBefore(joints, envelopes, before, now, j)
  {
    hide JointTrigger;
    trigger, j := NoTrigger, 0;
    while j < |joints|
      invariant j <= |joints| && trigger.NoTrigger? && NoTriggerBefore(joints, envelopes, before, now, j)
    {
      trigger := TriggerAt(joints, envelopes, before, now, j);
      if trigger != NoTrigger {
        return;
      }
      j := j + 1;
    }
  }

  ghost predicate NoTriggerBefore(
    joints: seq<JointCommand>, envelopes: seq<Envelope>, before: Option<CommandBatch>, now: real,
    n: nat)
    requires Comparable(joints, envelopes, before) && n <= |joints|
  {
    forall i :: 0 <= i < n ==> TriggerAt(joints, envelopes, before, now, i).NoTrigger?
  }

  /** A refused batch: the verdict names the first joint in error, and the first limit it broke. */
  ghost predicate Blames(
    v: Verdict, joints: seq<JointCommand>, envelopes: seq<Envelope>, before: Option<CommandBatch>,
    now: real)
  {
    && v.firstOffendingJoint < |joints| && v.jointsProjected == |joints|
    && (if v.trigger.NonFiniteCommand?
        then !joints[v.firstOffendingJoint].IsFinite() && AllFinite(joints[..v.firstOffendingJoint])
        else
          && AllFinite(joints) && Comparable(joints, envelopes, before)
          && BreaksFirst(v.trigger, joints[v.firstOffendingJoint], envelopes[v.firstOffendingJoint],
                         PreviousJoint(before, v.firstOffendingJoint), SinceStamp(before, now))
          && forall i :: 0 <= i < v.firstOffendingJoint ==>
            BreaksNothing(joints[i], envelopes[i], PreviousJoint(before, i), SinceStamp(before, now)))
  }

  lemma TriggerBlames(
    joints: seq<JointCommand>, envelopes: seq<Envelope>, before: Option<CommandBatch>, now: real,
    j: nat)
    requires Comparable(joints, envelopes, before) && j < |joints|
    requires !TriggerAt(joints, envelopes, before, now, j).NoTrigger?
    requires NoTriggerBefore(joints, envelopes, before, now, j)
    ensures Blames(Verdict(TriggerAt(joints, envelopes, before, now, j), j, |joints|, true, true),
                   joints, envelopes, before, now)
  {
    hide JointTrigger, Breaks, Rank;
    forall i | 0 <= i <= j
      ensures var t := TriggerAt(joints, envelopes, before, now, i);
        if t.NoTrigger?
        then BreaksNothing(joints[i], envelopes[i], PreviousJoint(before, i), SinceStamp(before, now))
        else BreaksFirst(t, joints[i], envelopes[i], PreviousJoint(before, i), SinceStamp(before, now))
    {
      TriggerIsFirstBroken(joints[i], envelopes[i], PreviousJoint(before, i), SinceStamp(before, now));
    }
  }

  lemma NoTriggerPasses(
    joints: seq<JointCommand>, envelopes: seq<Envelope>, before: Option<CommandBatch>, now: real)
    requires Comparable(joints, envelopes, before)
    requires NoTriggerBefore(joints, envelopes, before, now, |joints|)
    ensures Passes(joints, envelopes, before, now)
  {
    hide SlewOk;
    forall j | 0 <= j < |joints|
      ensures Respects(joints[j], envelopes[j])
      ensures before.Some? ==> SlewOk(joints[j].effort, before.value.joints[j].effort,
                                      now - before.value.stamp, envelopes[j].torqueSlewMax)
    {
      assert TriggerAt(joints, envelopes, before, now, j).NoTrigger?;
    }
  }

  lemma TriggerFails(
    joints: seq<JointCommand>, envelopes: seq<Envelope>, before: Option<CommandBatch>, now: real,
    j: nat)
    requires Comparable(joints, envelopes, before) && j < |joints|
    requires !TriggerAt(joints, envelopes, before, now, j).NoTrigger?
    ensures !Passes(joints, envelopes, before, now)
  {
    hide SlewOk;
  }

  // ---- The slew limit over whole runs ----

  datatype Acceptance = Acceptance(command: CommandBatch, now: real)

  /** Each accepted batch passed against the one accepted before it, whatever was damped between. */
  ghost predicate AcceptedRun(run: seq<Acceptance>, envelopes: seq<Envelope>) {
    forall i :: 0 <= i < |run| ==> PassedAfter(run, i, envelopes)
  }

  ghost predicate PassedAfter(run: seq<Acceptance>, i: nat, envelopes: seq<Envelope>)
    requires i < |run|
  {
    Passes(run[i].command.joints, envelopes,
           if i == 0 then None else Some(run[i - 1].command), run[i].now)
  }

  lemma ExtendRun(run: seq<Acceptance>, envelopes: seq<Envelope>, a: Acceptance)
    requires AcceptedRun(run, envelopes)
    requires Passes(a.command.joints, envelopes,
                    if run == [] then None else Some(run[|run| - 1].command), a.now)
    ensures AcceptedRun(run + [a], envelopes)
  {
    hide Passes;
    var longer := run + [a];
    forall i | 0 <= i < |longer|
      ensures PassedAfter(longer, i, envelopes)
    {
      if i < |run| {
        assert PassedAfter(run, i, envelopes);
        assert longer[i] == run[i] && (i > 0 ==> longer[i - 1] == run[i - 1]);
      } else {
        assert i > 0 ==> longer[i - 1] == run[|run| - 1];
      }
    }
  }

  /** The time each check saw: its reading of the clock less the stamp accepted before. */
  function Gap(run: seq<Acceptance>, i: nat): real
    requires 0 < i < |run|
  {
    run[i].now - run[i - 1].command.stamp
  }

  function Elapsed(run: seq<Acceptance>, m: nat, n: nat): real
    requires m <= n < |run|
  {
    if m == n then 0.0 else Elapsed(run, m, n - 1) + Gap(run, n)
  }

  function EffortAt(run: seq<Acceptance>, i: nat, j: nat): Num
    requires i < |run| && j < |run[i].command.joints|
  {
    run[i].command.joints[j].effort
  }

  lemma StepWithinSlew(run: seq<Acceptance>, envelopes: seq<Envelope>, i: nat, j: nat, limit: real)
    requires AcceptedRun(run, envelopes) && 0 < i < |run| && Gap(run, i) > 0.0
    requires j < |run[i].command.joints| && j < |envelopes|
    requires envelopes[j].torqueSlewMax == Real(limit)
    ensures j < |run[i - 1].command.joints|
    ensures EffortAt(run, i, j).IsFinite() && EffortAt(run, i - 1, j).IsFinite()
    ensures AbsReal(EffortAt(run, i, j).r - EffortAt(run, i - 1, j).r) <= limit * Gap(run, i)
  {
    hide AllRespect;
    assert PassedAfter(run, i, envelopes);
    var a, b := run[i].command.joints[j], run[i - 1].command.joints[j];
    assert a.IsFinite() && b.IsFinite();
    assert SlewOk(a.effort, b.effort, Gap(run, i), envelopes[j].torqueSlewMax);
    QuotientBound(AbsReal(a.effort.r - b.effort.r), Gap(run, i), limit);
  }

  lemma QuotientBound(x: real, dt: real, limit: real)
    requires dt > 0.0 && x / dt <= limit
    ensures x <= limit * dt
  {
    assert x == x / dt * dt;
    assert x / dt * dt <= limit * dt;
  }

  lemma Spread(limit: real, a: real, b: real)
    ensures limit * (a + b) == limit * a + limit * b
  {
  }

  /** Between any two accepted batches a joint's feed-forward torque moves by at most its slew limit
      times the sum of the intervals checked between them, if every one of those was positive. */
  lemma {:induction false} SlewBound(
    run: seq<Acceptance>, envelopes: seq<Envelope>, m: nat, n: nat, j: nat, limit: real)
    requires AcceptedRun(run, envelopes) && m <= n < |run|
    requires forall i :: m < i <= n ==> Gap(run, i) > 0.0
    requires forall i :: m <= i <= n ==> j < |run[i].command.joints|
    requires j < |envelopes| && envelopes[j].torqueSlewMax == Real(limit)
    ensures EffortAt(run, m, j).IsFinite() && EffortAt(run, n, j).IsFinite()
    ensures AbsReal(EffortAt(run, n, j).r - EffortAt(run, m, j).r) <= limit * Elapsed(run, m, n)
    decreases n - m
  {
    hide AcceptedRun;
    if m == n {
      AcceptedIsFinite(run, envelopes, m, j);
    } else {
      SlewBound(run, envelopes, m, n - 1, j, limit);
      StepWithinSlew(run, envelopes, n, j, limit);
      Spread(limit, Elapsed(run, m, n - 1), Gap(run, n));
    }
  }

  lemma AcceptedIsFinite(run: seq<Acceptance>, envelopes: seq<Envelope>, i: nat, j: nat)
    requires AcceptedRun(run, envelopes) && i < |run| && j < |run[i].command.joints|
    ensures EffortAt(run, i, j).IsFinite()
  {
    assert PassedAfter(run, i, envelopes);
    assert run[i].command.joints[j].IsFinite();
  }

  /** The intervals must be positive: a check that sees no time pass bounds nothing. */
  lemma NoTimeNoBound(c: JointCommand, e: Envelope, previous: JointCommand, dt: real)
    requires c.IsFinite() && previous.IsFinite() && dt <= 0.0 && Respects(c, e)
    ensures JointTrigger(c, e, Some(previous), dt) == NoTrigger
  {
  }

  /** Stiffness and damping are not looked at: only their finiteness is. */
  lemma GainsAreNotBounded(
    c: JointCommand, e: Envelope, previous: Option<JointCommand>, dt: real, kp: real, kd: real)
    requires c.IsFinite() && (previous.Some? ==> previous.value.IsFinite())
    ensures JointTrigger(c.(stiffness := Real(kp), damping := Real(kd)), e, previous, dt)
      == JointTrigger(c, e, previous, dt)
  {
  }
}
