/** The hardware component: one exchange per write, judged by the next read, with the authority to
    command the robot latched away by the first failure. */
module ActuatorSystems {
  import opened Wrappers
  import opened Bits
  import opened Numbers
  import opened BatchTypes
  import opened SafetyKernels
  import opened TupleOwnership
  import opened CommandTraces

  const STATE_FIELDS := 3

  // ---- Interface storage ----

  function FieldOf(c: JointCommand, f: nat): Num {
    match f
    case 0 => c.position
    case 1 => c.velocity
    case 2 => c.effort
    case 3 => c.stiffness
    case _ => c.damping
  }

  function WithField(c: JointCommand, f: nat, v: Num): JointCommand {
    match f
    case 0 => c.(position := v)
    case 1 => c.(velocity := v)
    case 2 => c.(effort := v)
    case 3 => c.(stiffness := v)
    case _ => c.(damping := v)
  }

  function Tuple(storage: seq<Num>, i: nat): JointCommand
    requires FIELD_COUNT * i + FIELD_COUNT <= |storage|
  {
    JointCommand(storage[FIELD_COUNT * i], storage[FIELD_COUNT * i + 1], storage[FIELD_COUNT * i + 2],
                 storage[FIELD_COUNT * i + 3], storage[FIELD_COUNT * i + 4])
  }

  predicate OneTupleEach(storage: seq<Num>, n: nat) {
    |storage| == FIELD_COUNT * n
  }

  /** The kernel is configured and passes what the controllers have written. */
  ghost predicate MayPass(
    storage: seq<Num>, n: nat, envelopes: seq<Envelope>, configured: bool, previous: Option<CommandBatch>,
    now: real)
    requires OneTupleEach(storage, n)
  {
    configured && Passes(Tuples(storage, n), envelopes, previous, now)
  }

  /** What the controllers have written, joint by joint. */
  function Tuples(storage: seq<Num>, n: nat): (joints: seq<JointCommand>)
    requires OneTupleEach(storage, n)
    ensures |joints| == n
  {
    seq(n, i requires 0 <= i < n => Tuple(storage, i))
  }

  method ReadTuple(storage: seq<Num>, i: nat) returns (c: JointCommand)
    requires FIELD_COUNT * i + FIELD_COUNT <= |storage|
    ensures c == Tuple(storage, i)
  {
    c := ZERO_JOINT;
    for f := 0 to FIELD_COUNT
      invariant forall g :: 0 <= g < f ==> FieldOf(c, g) == storage[FIELD_COUNT * i + g]
    {
      hide FieldOf, WithField;
      WithFieldSets(c, f, storage[FIELD_COUNT * i + f]);
      c := WithField(c, f, storage[FIELD_COUNT * i + f]);
    }
    assert FieldOf(c, 0) == storage[FIELD_COUNT * i] && FieldOf(c, 1) == storage[FIELD_COUNT * i + 1];
    assert FieldOf(c, 2) == storage[FIELD_COUNT * i + 2];
    assert FieldOf(c, 3) == storage[FIELD_COUNT * i + 3];
    assert FieldOf(c, 4) == storage[FIELD_COUNT * i + 4];
  }

  lemma WithFieldSets(c: JointCommand, f: nat, v: Num)
    requires f < FIELD_COUNT
    ensures forall g: nat :: g < FIELD_COUNT ==>
      FieldOf(WithField(c, f, v), g) == if g == f then v else FieldOf(c, g)
  {
  }

  method ReadTuples(storage: seq<Num>, n: nat) returns (joints: seq<JointCommand>)
    requires OneTupleEach(storage, n)
    ensures joints == Tuples(storage, n)
  {
    hide Tuple;
    joints := [];
    for i := 0 to n
      invariant |joints| == i
      invariant forall k :: 0 <= k < i ==> joints[k] == Tuple(storage, k)
    {
      var c := ReadTuple(storage, i);
      joints := joints + [c];
    }
  }

  /** The state interfaces of each joint, in order. */
  function States(joints: seq<JointFeedback>): (s: seq<real>)
    ensures |s| == STATE_FIELDS * |joints|
  {
    if joints == [] then []
    else
      var last := joints[|joints| - 1];
      States(joints[..|joints| - 1]) + [last.position, last.velocity, last.effort]
  }

  method StateOf(joints: seq<JointFeedback>) returns (s: seq<real>)
    ensures s == States(joints)
  {
    s := [];
    for i := 0 to |joints|
      invariant s == States(joints[..i])
    {
      s := s + [joints[i].position, joints[i].velocity, joints[i].effort];
      assert joints[..i + 1][..i] == joints[..i];
    }
    assert joints[..|joints|] == joints;
  }

  // ---- Feedback ----

  predicate AnyFresh(joints: seq<JointFeedback>) {
    exists j :: 0 <= j < |joints| && joints[j].isFresh
  }

  /** The batch answers the command last sent, if one was. */
  predicate AnswersCommand(f: FeedbackBatch, jointCount: nat, sent: Option<nat>) {
    && sent.Some? && f.sequence == sent.value && |f.joints| == jointCount && AnyFresh(f.joints)
  }

  /** What a transport makes of one exchange: on failure it leaves the feedback alone, on success
      it echoes the command's sequence. */
  datatype Outcome =
    | Fails(error: TransportError)
    | Answers(joints: seq<JointFeedback>, availability: set<nat>, epoch: nat)

  function AfterExchange(f: FeedbackBatch, sequence: nat, outcome: Outcome): FeedbackBatch {
    match outcome
    case Fails(_) => f
    case Answers(joints, availability, epoch) => FeedbackBatch(sequence, joints, availability, epoch)
  }

  /** With a sequence not used before, a failed exchange is seen; with the same one again, as the
      protective branch sends it, the earlier answer passes for a new one. */
  lemma FailureShowsOnlyInANewSequence(
    f: FeedbackBatch, n: nat, sequence: nat, next: nat, error: TransportError)
    requires AnswersCommand(f, n, Some(sequence))
    ensures AnswersCommand(AfterExchange(f, next, Fails(error)), n, Some(next)) <==> next == sequence
  {
  }

  /** The bad-cycle count is one byte; this is when a read stops the robot. */
  predicate Stops(unanswered: nat, maxBadCycles: byte) {
    unanswered % 256 >= maxBadCycles
  }

  /** From activation or the last answer, the first read to stop the robot is exactly the one that
      makes the run of unanswered reads reach the limit. */
  lemma FirstStopAtTheLimit(n: nat, maxBadCycles: byte)
    requires n > 0 && maxBadCycles > 0
    ensures Stops(n, maxBadCycles) && (forall k :: 0 < k < n ==> !Stops(k, maxBadCycles))
      <==> n == maxBadCycles
  {
    assert Stops(maxBadCycles, maxBadCycles);
    if n < maxBadCycles {
      assert n % 256 == n;
    }
    assert forall k: nat :: k < maxBadCycles ==> k % 256 == k && !Stops(k, maxBadCycles);
  }

  /** Past the limit it keeps stopping only until the count wraps. */
  lemma WrappedCountForgives(maxBadCycles: byte)
    requires maxBadCycles > 0
    ensures Stops(255, maxBadCycles) && !Stops(256, maxBadCycles)
  {
  }

  /** What a batch holds before there is anything to put in it. */
  function NoCommands(n: nat): (joints: seq<JointCommand>)
    ensures |joints| == n && Damped(joints)
  {
    seq(n, _ => ZERO_JOINT)
  }

  function NoReadings(n: nat): (joints: seq<JointFeedback>)
    ensures |joints| == n && !AnyFresh(joints)
  {
    seq(n, _ => NO_FEEDBACK)
  }

  // ---- How the component's fields agree with what it has done ----

  datatype Status = Status(
    authority: CommandAuthority, owned: JointMask, cycle: nat, lastSent: Option<nat>,
    feedback: FeedbackBatch, joints: seq<JointCommand>, limits: Option<seq<Envelope>>,
    previous: Option<CommandBatch>)

  ghost predicate Coherent(s: Status, t: Trace, jointNames: seq<string>) {
    && |s.joints| == |jointNames| && AllLawful(t, jointNames) && s.owned == Owned(t.history)
    && (s.limits.Some? ==>
      && s.limits.value == Limits(t.history) && |s.limits.value| == |jointNames|
      && Remembers(s.previous, LastOf(t)))
    && (s.authority.Protective? ==> Damped(s.joints))
    && (!s.authority.Protective? ==>
      && NoneProtective(t.Current()) && |t.Current()| == s.cycle
      && s.authority == AuthorityAfter(AwaitingClaim, Saw(t.Current(), |jointNames|))
      && s.lastSent == (if s.cycle == 0 then None else Some(s.cycle - 1))
      && FeedbackIsOld(s.feedback, s.cycle, t.lastExchangeOk))
  }

  /** What the kernel checks against is the last command that went out under its configuration, stamped
      with that write's own time. */
  predicate Remembers(previous: Option<CommandBatch>, last: Option<Sent>) {
    if last.None? then previous.None?
    else previous == Some(last.value.batch) && last.value.batch.stamp == last.value.stamp
  }

  /** Before a write's exchange succeeds, no fresh feedback carries that write's sequence; after,
      it does. */
  ghost predicate FeedbackIsOld(f: FeedbackBatch, cycle: nat, lastOk: bool) {
    && (lastOk ==> cycle > 0 && f.sequence == cycle - 1)
    && (!lastOk && AnyFresh(f.joints) ==> f.sequence + 1 < cycle)
  }

  lemma AnswerIsNew(s: Status, t: Trace, jointNames: seq<string>)
    requires Coherent(s, t, jointNames) && !s.authority.Protective?
    requires AnswersCommand(s.feedback, |jointNames|, s.lastSent)
    ensures t.lastExchangeOk && s.feedback.sequence + 1 == s.cycle
  {
    hide LastIn, AllLawful, NoneProtective, AuthorityAfter, Owned, Limits;
  }

  /** Going protective with a damped batch, whatever the trace last counted. */
  lemma StaysCoherent(
    s: Status, t: Trace, jointNames: seq<string>, damped: seq<JointCommand>, n: nat)
    requires Coherent(s, t, jointNames) && Damped(damped) && |damped| == |jointNames|
    ensures Coherent(
      s.(authority := Protective, joints := damped), t.(unanswered := n), jointNames)
  {
    hide LastIn, AllSlewKept, RunLawful, MasksTrue, AllAccepted, Owned, Limits, Damped;
  }

  lemma CountedCoherent(
    s: Status, t: Trace, jointNames: seq<string>, n: nat)
    requires Coherent(s, t, jointNames)
    ensures Coherent(s, t.(unanswered := n), jointNames)
  {
    hide LastIn, AllSlewKept, RunLawful, MasksTrue, AllAccepted, Owned, Limits, Damped, NoneProtective,
      AuthorityAfter, Saw;
  }

  /** A configuration withdraws every interface and forgets both batches. */
  lemma ConfiguredCoherent(
    s: Status, t: Trace, jointNames: seq<string>, f: FeedbackBatch,
    zeros: seq<JointCommand>)
    requires Coherent(s, t, jointNames)
    requires !AnyFresh(f.joints) && |zeros| == |jointNames| && Damped(zeros)
    ensures var t' := WithChange(t, Withdrawn).(lastExchangeOk := false);
      && Coherent(s.(owned := {}, feedback := f, joints := zeros), t', jointNames) && Continues(t', t)
      && Limits(t'.history) == Limits(t.history)
  {
    hide LastIn, AllSlewKept, RunLawful, MasksTrue, Damped, NoneProtective, AuthorityAfter, Saw, Owned, Limits;
    ChangeLawful(t, jointNames, Withdrawn);
  }

  /** A configured kernel changes nothing of what the component may do next but its limits. */
  lemma LimitedCoherent(s: Status, t: Trace, jointNames: seq<string>, envelopes: seq<Envelope>)
    requires Coherent(s, t, jointNames) && |envelopes| == |jointNames|
    ensures var t' := WithChange(t, Limited(envelopes));
      && Coherent(s.(limits := Some(envelopes), previous := None), t', jointNames) && Continues(t', t)
      && Limits(t'.history) == envelopes
  {
    hide LastIn, AllSlewKept, RunLawful, MasksTrue, Damped, NoneProtective, AuthorityAfter, Saw, Owned, Limits;
    ChangeLawful(t, jointNames, Limited(envelopes));
  }

  /** An accepted switch changes nothing but who owns what. */
  lemma SwitchedCoherent(
    s: Status, t: Trace, jointNames: seq<string>, start: seq<string>,
    stop: seq<string>, claims: TupleClaims)
    requires Coherent(s, t, jointNames)
    requires WholeTuples(start, jointNames) && WholeTuples(stop, jointNames)
    requires Claims(claims, start, stop, jointNames)
    ensures var t' := WithChange(t, Switched(start, stop, claims));
      && Coherent(s.(owned := ApplyClaims(s.owned, claims)), t', jointNames)
      && Continues(t', t)
  {
    hide LastIn, AllSlewKept, RunLawful, MasksTrue, Damped, NoneProtective, AuthorityAfter, Saw, Owned,
      Limits, WholeTuples, Claims;
    ChangeLawful(t, jointNames, Switched(start, stop, claims));
  }

  lemma StartsCoherent(
    s: Status, t: Trace, jointNames: seq<string>, f: FeedbackBatch,
    joints: seq<JointCommand>)
    requires Coherent(s, t, jointNames) && |joints| == |jointNames| && !AnyFresh(f.joints)
    ensures var t' := t.(runs := t.runs + [[]], lastExchangeOk := false, unanswered := 0);
      && Coherent(Status(AwaitingClaim, s.owned, 0, None, f, joints, s.limits, s.previous), t', jointNames)
      && t'.Current() == [] && Continues(t', t)
  {
    hide LastIn, AllLawful, Owned, Limits, Damped;
    NewRunLawful(t, jointNames);
  }

  lemma CoherentIsLawful(s: Status, t: Trace, jointNames: seq<string>)
    requires Coherent(s, t, jointNames)
    ensures AllLawful(t, jointNames) && |s.joints| == |jointNames|
    ensures s.authority.Protective? ==> Damped(s.joints)
    ensures s.limits.Some? ==> s.limits.value == Limits(t.history) && |s.limits.value| == |jointNames|
    ensures s.owned == Owned(t.history)
  {
    hide LastIn, AllLawful, NoneProtective, Damped, Owned, Limits, AuthorityAfter;
  }

  /** The entry of a write. */
  function Entry(
    batch: CommandBatch, authority: CommandAuthority, t: Trace, owned: JointMask, stamp: real, now: real): Sent
  {
    Sent(batch, authority, |t.history|, owned, Limits(t.history), Configs(t.history), stamp, now)
  }

  /** A protective write sends the damped batch again. */
  lemma ResendCoherent(
    s: Status, t: Trace, jointNames: seq<string>, batch: CommandBatch,
    outcome: Outcome, stamp: real, now: real)
    requires Coherent(s, t, jointNames)
    requires Damped(batch.joints) && |batch.joints| == |jointNames|
    ensures var t' := WithSent(t, Entry(batch, Protective, t, s.owned, stamp, now), outcome.Answers?);
      && Coherent(
        Status(Protective, s.owned, s.cycle, Some(batch.sequence),
               AfterExchange(s.feedback, batch.sequence, outcome), batch.joints, s.limits,
               s.previous),
        t', jointNames)
      && Continues(t', t)
  {
    hide AllLawful, NoneProtective, Damped, Lawful, Owned, Limits, Configs, AuthorityAfter, OwnsAll, Saw,
      Continues, LastIn, AllSlewOk;
    var e := Entry(batch, Protective, t, s.owned, stamp, now);
    DampedIsLawful(e, |jointNames|);
    SentLawful(t, jointNames, e, outcome.Answers?, s.authority);
  }

  /** Any other write sends a batch of its own sequence: damping, or what a controller may. */
  lemma SendCoherent(
    s: Status, t: Trace, jointNames: seq<string>, batch: CommandBatch,
    outcome: Outcome, stamp: real, now: real)
    requires Coherent(s, t, jointNames) && batch.stamp == stamp
    requires batch.sequence == s.cycle && |batch.joints| == |jointNames|
    requires var next := NextAuthority(s.authority, OwnsAll(s.owned, |jointNames|));
      && !next.Protective?
      && if next.Controller?
         then s.limits.Some? && Passes(batch.joints, Limits(t.history), s.previous, now)
         else Damped(batch.joints)
    ensures var next := NextAuthority(s.authority, OwnsAll(s.owned, |jointNames|));
      var t' := WithSent(t, Entry(batch, next, t, s.owned, stamp, now), outcome.Answers?);
      && Coherent(
        Status(next, s.owned, s.cycle + 1, Some(s.cycle), AfterExchange(s.feedback, s.cycle, outcome),
               batch.joints, s.limits, if next.Controller? then Some(batch) else s.previous),
        t', jointNames)
      && Continues(t', t)
  {
    hide AllLawful, NoneProtective, Damped, Owned, Limits, Configs, AuthorityAfter, OwnsAll, Saw, Continues,
      AllFinite, AllRespect, AllSlewOk, LastIn;
    var next := NextAuthority(s.authority, OwnsAll(s.owned, |jointNames|));
    var e := Entry(batch, next, t, s.owned, stamp, now);
    assert Lawful(e, |jointNames|);
    SentLawful(t, jointNames, e, outcome.Answers?, s.authority);
  }

  lemma DampedIsLawful(e: Sent, n: nat)
    requires Damped(e.batch.joints) && |e.batch.joints| == n && e.authority.Protective?
    ensures Lawful(e, n)
  {
  }

  // ---- What every life of the component keeps ----

  /** In every activation, each batch is damping or earned; and once one is protective, only damping
      follows. */
  ghost predicate Safe(t: Trace, n: nat) {
    && (forall r, i :: 0 <= r < |t.runs| && 0 <= i < |t.runs[r]| ==>
      Earned(t.runs[r], i, t.history, n))
    && (forall r, i, j :: 0 <= r < |t.runs| && 0 <= i <= j < |t.runs[r]| ==>
      t.runs[r][i].authority.Protective? ==>
        t.runs[r][j].authority.Protective? && Damped(t.runs[r][j].batch.joints))
    && (forall config: nat :: SlewSafe(Commands(Flat(t.runs), config), n))
  }

  /** Between any two commands under one configuration, whatever was refused or damped in between and in
      however many activations: if each check saw time pass since the command before it was stamped, no
      joint's effort moved by more than its slew limit times the sum of those times. */
  ghost predicate SlewSafe(cs: seq<Sent>, n: nat) {
    forall a, b, j :: 0 <= a < b < |cs| && 0 <= j < n && TimeMoves(cs, a, b) ==> MovedWithin(cs, a, b, j)
  }

  lemma LawfulIsSlewSafe(t: Trace, jointNames: seq<string>, config: nat)
    requires AllLawful(t, jointNames)
    ensures SlewSafe(Commands(Flat(t.runs), config), |jointNames|)
  {
    hide RunLawful, MasksTrue, AllAccepted, Commands, Flat, StepKept, MovedWithin, TimeMoves, SameLimits;
    var cs := Commands(Flat(t.runs), config);
    FlatIsTrue(t.runs, t.history);
    CommandsShareLimits(Flat(t.runs), t.history, config);
    CommandsAreSent(Flat(t.runs), config);
    FlatIsSized(t.runs, |jointNames|);
    forall a, b, j | 0 <= a < b < |cs| && 0 <= j < |jointNames| && TimeMoves(cs, a, b)
      ensures MovedWithin(cs, a, b, j)
    {
      assert cs[a] in cs;
      EffortMovesWithin(cs, a, b, j);
    }
  }

  lemma {:induction false} FlatIsSized(runs: seq<seq<Sent>>, n: nat)
    requires forall r :: 0 <= r < |runs| ==> RunLawful(runs[r], n)
    ensures forall e :: e in Flat(runs) ==> |e.batch.joints| == n
  {
    hide InPlace;
    if runs == [] {
    } else {
      FlatIsSized(runs[..|runs| - 1], n);
      assert RunLawful(runs[|runs| - 1], n);
    }
  }

  lemma LawfulIsSafe(t: Trace, jointNames: seq<string>)
    requires AllLawful(t, jointNames)
    ensures Safe(t, |jointNames|)
  {
    hide RunLawful, MasksTrue, Earned, Damped, AllAccepted, AllSlewKept, SlewSafe, Flat, Commands;
    forall config: nat
      ensures SlewSafe(Commands(Flat(t.runs), config), |jointNames|)
    {
      LawfulIsSlewSafe(t, jointNames, config);
    }
    forall r, i | 0 <= r < |t.runs| && 0 <= i < |t.runs[r]|
      ensures Earned(t.runs[r], i, t.history, |jointNames|)
    {
      EveryBatchIsEarned(t.runs[r], i, t.history, |jointNames|);
    }
    forall r, i, j |
      0 <= r < |t.runs| && 0 <= i <= j < |t.runs[r]| && t.runs[r][i].authority.Protective?
      ensures t.runs[r][j].authority.Protective? && Damped(t.runs[r][j].batch.joints)
    {
      ProtectiveMeansDamping(t.runs[r], |jointNames|, i, j);
    }
  }

  /** What a safety manifest says. Parsing one establishes that it has an envelope for each joint. */
  datatype Manifest = Manifest(envelopes: seq<Envelope>, maxBadCycles: byte)

  const DEFAULT_MAX_BAD_CYCLES := 3

  class HumanoidActuatorSystem {
    const jointNames: seq<string>
    const kernel: SafetyKernel
    var maxBadCycles: byte
    var hasTransport: bool
    var transportActive: bool
    var owned: JointMask
    var authority: CommandAuthority
    var cycle: nat
    var feedback: FeedbackBatch
    var lastSent: Option<nat>
    var lastError: TransportError
    var consecutiveBad: byte
    var snapshot: CommandBatch
    var commandStorage: seq<Num>
    var stateStorage: seq<real>
    ghost var trace: Trace

    ghost function Now(): Status
      reads this, kernel
    {
      Status(authority, owned, cycle, lastSent, feedback, snapshot.joints,
             if kernel.configured then Some(kernel.envelopes) else None, kernel.Previous())
    }

    ghost predicate Valid()
      reads this, kernel
    {
      && kernel.Valid() && OneTupleEach(commandStorage, |jointNames|)
      && consecutiveBad == trace.unanswered % 256 && (transportActive ==> hasTransport)
      && Coherent(Now(), trace, jointNames)
    }

    constructor (jointNames: seq<string>)
      ensures Valid() && fresh(kernel) && !hasTransport && trace == Trace([[]], [], false, 0)
      ensures this.jointNames == jointNames && !kernel.configured
    {
      this.jointNames, maxBadCycles := jointNames, DEFAULT_MAX_BAD_CYCLES;
      kernel := new SafetyKernel();
      hasTransport, transportActive := false, false;
      owned, authority, cycle := {}, AwaitingClaim, 0;
      feedback, lastSent, lastError := FeedbackBatch(0, [], {}, 0), None, NoError;
      consecutiveBad, stateStorage := 0, [];
      snapshot := CommandBatch(0, 0.0, NoCommands(|jointNames|));
      commandStorage := seq(FIELD_COUNT * |jointNames|, _ => Real(0.0));
      trace := Trace([[]], [], false, 0);
    }

    /** Takes the safety manifest, if it could be read; configures the kernel with it; then takes a
        new transport in place of the old one, if it loads. No claim survives a configuration that
        succeeds, and the old batches go. One that fails halfway leaves what it has changed. */
    method OnConfigure(manifest: Option<Manifest>, loads: bool, configures: bool, capable: bool)
      returns (ok: bool)
      requires Valid() && (manifest.Some? ==> |manifest.value.envelopes| == |jointNames|)
      modifies this`maxBadCycles, this`hasTransport, this`transportActive, this`owned, this`snapshot,
        this`feedback, this`trace, kernel
      ensures Valid() && trace.runs == old(trace).runs && Continues(trace, old(trace))
      ensures var fits := manifest.Some? && 0 < |jointNames| <= MAX_BATCH_JOINTS;
        && ok == (fits && loads && configures && capable)
        && hasTransport == (old(hasTransport) || (fits && loads))
        && transportActive == (old(transportActive) && !(fits && loads))
        && maxBadCycles == (if manifest.Some? then manifest.value.maxBadCycles else old(maxBadCycles))
        && (if fits
            then kernel.configured && kernel.envelopes == manifest.value.envelopes && kernel.accepted == []
            else kernel.configured == old(kernel.configured) && kernel.envelopes == old(kernel.envelopes))
        && (!ok ==>
          trace == if fits then WithChange(old(trace), Limited(manifest.value.envelopes)) else old(trace))
      ensures ok ==> owned == {} && Limits(trace.history) == manifest.value.envelopes
      ensures !ok ==> owned == old(owned) && snapshot == old(snapshot) && feedback == old(feedback)
    {
      hide SafetyKernel.Valid, Coherent, OneTupleEach, Continues, NoCommands, NoReadings, AnyFresh, Damped,
        Limits, WithChange;
      ContinuesChain(trace, trace, trace);
      if manifest.None? {
        return false;
      }
      maxBadCycles := manifest.value.maxBadCycles;
      ok := ConfigureKernel(manifest.value.envelopes);
      if !ok || !loads {
        return false;
      }
      hasTransport, transportActive := true, false;
      if !configures || !capable {
        return false;
      }
      ghost var limited := trace;
      TakeBatches();
      ContinuesChain(old(trace), limited, trace);
    }

    /** The kernel takes the envelopes if there is one for each joint, and not too many. */
    method ConfigureKernel(envelopes: seq<Envelope>) returns (ok: bool)
      requires Valid() && |envelopes| == |jointNames|
      modifies this`trace, kernel
      ensures Valid() && Continues(trace, old(trace)) && trace.runs == old(trace).runs
      ensures ok == (0 < |jointNames| <= MAX_BATCH_JOINTS)
      ensures ok ==>
        && kernel.configured && kernel.envelopes == envelopes && kernel.accepted == []
        && trace == WithChange(old(trace), Limited(envelopes)) && Limits(trace.history) == envelopes
      ensures !ok ==>
        && kernel.configured == old(kernel.configured) && kernel.envelopes == old(kernel.envelopes)
        && trace == old(trace)
    {
      hide SafetyKernel.Valid, Coherent, OneTupleEach, Continues, Limits;
      ContinuesChain(trace, trace, trace);
      ghost var was, before := Now(), trace;
      ok := kernel.Configure(|jointNames|, envelopes);
      if ok {
        trace := WithChange(trace, Limited(envelopes));
        LimitedCoherent(was, before, jointNames, envelopes);
      }
    }

    /** Fresh batches, and no claim on any joint. */
    method TakeBatches()
      requires Valid()
      modifies this`owned, this`snapshot, this`feedback, this`trace
      ensures Valid() && Continues(trace, old(trace)) && trace.runs == old(trace).runs
      ensures owned == {} && Limits(trace.history) == Limits(old(trace).history)
    {
      hide SafetyKernel.Valid, Coherent, OneTupleEach, Continues, NoCommands, NoReadings, AnyFresh, Damped,
        Limits;
      ghost var was, before := Now(), trace;
      snapshot := CommandBatch(0, 0.0, NoCommands(|jointNames|));
      feedback := FeedbackBatch(0, NoReadings(|jointNames|), {}, 0);
      owned := {};
      trace := WithChange(trace, Withdrawn).(lastExchangeOk := false);
      ConfiguredCoherent(was, before, jointNames, feedback, snapshot.joints);
    }

    /** A controller writes one of its command interfaces. */
    method SetCommand(i: nat, value: Num)
      requires Valid() && i < |commandStorage|
      modifies this`commandStorage
      ensures Valid() && commandStorage == old(commandStorage)[i := value]
    {
      hide Coherent, SafetyKernel.Valid;
      commandStorage := commandStorage[i := value];
    }

    /** Latched: zeroes the batch in place. */
    method EnterProtectiveState(trigger: Trigger)
      requires kernel.Valid()
      modifies this`snapshot, this`authority, kernel`lastTrigger
      ensures kernel.Valid() && kernel.lastTrigger == trigger && authority.Protective?
      ensures |snapshot.joints| == |old(snapshot).joints| && Damped(snapshot.joints)
      ensures snapshot == old(snapshot).(joints := snapshot.joints)
    {
      snapshot := kernel.EnterProtective(trigger, snapshot);
      authority := Protective;
    }

    method PerformModeSwitch(start: seq<string>, stop: seq<string>) returns (ok: bool)
      requires Valid()
      modifies this`owned, this`trace
      ensures Valid() && Continues(trace, old(trace))
      ensures ok <==> WholeTuples(start, jointNames) && WholeTuples(stop, jointNames)
      ensures ok ==> exists c ::
        && Claims(c, start, stop, jointNames) && owned == ApplyClaims(old(owned), c)
        && trace == WithChange(old(trace), Switched(start, stop, c))
      ensures !ok ==> owned == old(owned) && trace == old(trace)
    {
      hide WholeTuples, Claims, Coherent, SafetyKernel.Valid, Continues, ApplyClaims;
      ContinuesChain(trace, trace, trace);
      var claims := ClaimTuples(start, stop, jointNames);
      if claims.None? {
        return false;
      }
      SwitchedCoherent(Now(), trace, jointNames, start, stop, claims.value);
      owned := ApplyClaims(owned, claims.value);
      trace := WithChange(trace, Switched(start, stop, claims.value));
      return true;
    }

    /** Activation is the only way out of protective. It begins a run of its own. */
    method OnActivate(transportActivates: bool) returns (ok: bool)
      requires Valid() && hasTransport
      modifies this`transportActive, this`authority, this`cycle, this`feedback, this`lastSent, this`lastError,
        this`consecutiveBad, this`snapshot, this`trace
      ensures Valid() && ok == transportActivates && trace.history == old(trace).history
      ensures Continues(trace, old(trace))
      ensures ok ==>
        && transportActive && authority.AwaitingClaim? && cycle == 0 && lastSent.None?
        && trace.unanswered == 0 && trace.runs == old(trace).runs + [[]] && !AnyFresh(feedback.joints)
      ensures !ok ==>
        authority == old(authority) && trace == old(trace) && transportActive == old(transportActive)
    {
      hide Coherent, SafetyKernel.Valid, OneTupleEach, Continues, NoCommands, NoReadings, AnyFresh, Damped,
        AllLawful;
      ContinuesChain(trace, trace, trace);
      if !transportActivates {
        return false;
      }
      transportActive := true;
      BeginRun();
      return true;
    }

    method BeginRun()
      requires Valid()
      modifies this`authority, this`cycle, this`feedback, this`lastSent, this`lastError,
        this`consecutiveBad, this`snapshot, this`trace
      ensures Valid() && Continues(trace, old(trace))
      ensures trace == old(trace).(runs := old(trace).runs + [[]], lastExchangeOk := false, unanswered := 0)
      ensures authority.AwaitingClaim? && cycle == 0 && lastSent.None? && !AnyFresh(feedback.joints)
    {
      hide Coherent, SafetyKernel.Valid, OneTupleEach, Continues, NoCommands, NoReadings, AnyFresh, Damped,
        AllLawful;
      ghost var was, before := Now(), trace;
      CoherentIsLawful(was, before, jointNames);
      cycle, lastSent, lastError, consecutiveBad, authority := 0, None, NoError, 0, AwaitingClaim;
      snapshot := snapshot.(joints := NoCommands(|jointNames|));
      feedback := feedback.(joints := NoReadings(|feedback.joints|));
      trace := trace.(runs := trace.runs + [[]], lastExchangeOk := false, unanswered := 0);
      StartsCoherent(was, before, jointNames, feedback, snapshot.joints);
    }

    /** EnterProtectiveState, keeping what the fields agree on. */
    method Latch(trigger: Trigger)
      requires Valid()
      modifies this`snapshot, this`authority, kernel`lastTrigger
      ensures Valid() && authority.Protective? && kernel.lastTrigger == trigger && Damped(snapshot.joints)
    {
      hide Coherent, SafetyKernel.Valid, OneTupleEach, Damped;
      ghost var was := Now();
      CoherentIsLawful(was, trace, jointNames);
      EnterProtectiveState(trigger);
      StaysCoherent(was, trace, jointNames, snapshot.joints, trace.unanswered);
    }

    method OnDeactivate()
      requires Valid()
      modifies this`snapshot, this`authority, this`transportActive, kernel`lastTrigger
      ensures Valid() && authority.Protective? && kernel.lastTrigger.OperatorStop?
      ensures Damped(snapshot.joints) && !transportActive
    {
      hide Coherent, SafetyKernel.Valid, OneTupleEach, Damped;
      Latch(OperatorStop);
      transportActive := false;
    }

    /** After a read or a write that failed. */
    method OnError()
      requires Valid()
      modifies this`snapshot, this`authority, this`transportActive, kernel`lastTrigger
      ensures Valid() && authority.Protective? && kernel.lastTrigger.TransportFailed?
      ensures Damped(snapshot.joints) && !transportActive
    {
      hide Coherent, SafetyKernel.Valid, OneTupleEach, Damped;
      Latch(TransportFailed);
      transportActive := false;
    }

    method OnShutdown()
      requires Valid()
      modifies this`snapshot, this`authority, this`transportActive, this`hasTransport, kernel`lastTrigger
      ensures Valid() && authority.Protective? && kernel.lastTrigger.OperatorStop?
      ensures Damped(snapshot.joints) && !transportActive && !hasTransport
    {
      hide Coherent, SafetyKernel.Valid, OneTupleEach, Damped;
      Latch(OperatorStop);
      hasTransport, transportActive := false, false;
    }

    /** The transport goes; whatever was latched stays. */
    method OnCleanup()
      requires Valid()
      modifies this`transportActive, this`hasTransport
      ensures Valid() && !transportActive && !hasTransport
    {
      hide Coherent, SafetyKernel.Valid, OneTupleEach;
      hasTransport, transportActive := false, false;
    }

    /** Copies the last feedback to the state interfaces if it answers the last command; otherwise
        counts a bad cycle, and stops at the limit. */
    method Read() returns (ok: bool)
      requires Valid()
      modifies this`consecutiveBad, this`trace, this`stateStorage, this`snapshot, this`authority,
        kernel`lastTrigger
      ensures Valid() && trace == old(trace).(unanswered := trace.unanswered)
      ensures !hasTransport ==>
        !ok && trace == old(trace) && stateStorage == old(stateStorage) && authority == old(authority)
      ensures hasTransport && AnswersCommand(feedback, |jointNames|, lastSent) ==>
        && ok && trace.unanswered == 0 && stateStorage == States(feedback.joints)
        && authority == old(authority)
        && (!authority.Protective? ==> trace.lastExchangeOk && feedback.sequence + 1 == cycle)
      ensures hasTransport && !AnswersCommand(feedback, |jointNames|, lastSent) ==>
        && trace.unanswered == old(trace).unanswered + 1 && stateStorage == old(stateStorage)
        && (ok <==> !Stops(trace.unanswered, maxBadCycles))
        && authority == (if ok then old(authority) else Protective)
        && (!ok ==>
          kernel.lastTrigger == if lastError != NoError then TransportFailed else SequenceRejected)
    {
      hide Coherent, SafetyKernel.Valid, OneTupleEach, AnswersCommand, Damped;
      if !hasTransport {
        return false;
      }
      if !AnswersCommand(feedback, |jointNames|, lastSent) {
        ok := CountBadCycle();
        return;
      }
      if !authority.Protective? {
        AnswerIsNew(Now(), trace, jointNames);
      }
      CountedCoherent(Now(), trace, jointNames, 0);
      consecutiveBad := 0;
      trace := trace.(unanswered := 0);
      stateStorage := StateOf(feedback.joints);
      return true;
    }

    method CountBadCycle() returns (ok: bool)
      requires Valid()
      modifies this`consecutiveBad, this`trace, this`snapshot, this`authority, kernel`lastTrigger
      ensures Valid() && trace == old(trace).(unanswered := old(trace).unanswered + 1)
      ensures ok <==> !Stops(trace.unanswered, maxBadCycles)
      ensures authority == if ok then old(authority) else Protective
      ensures !ok ==>
        kernel.lastTrigger == if lastError != NoError then TransportFailed else SequenceRejected
    {
      hide Coherent, SafetyKernel.Valid, OneTupleEach, Damped;
      CountedCoherent(Now(), trace, jointNames, trace.unanswered + 1);
      consecutiveBad := (consecutiveBad + 1) % 256;
      trace := trace.(unanswered := trace.unanswered + 1);
      ok := consecutiveBad < maxBadCycles;
      if !ok {
        Latch(if lastError != NoError then TransportFailed else SequenceRejected);
      }
    }

    /** The single exchange of a cycle. */
    method ExchangeOnce(outcome: Outcome, ghost stamp: real, ghost now: real)
      modifies this`feedback, this`lastSent, this`lastError, this`trace
      ensures lastSent == Some(snapshot.sequence)
      ensures feedback == AfterExchange(old(feedback), snapshot.sequence, outcome)
      ensures trace ==
        WithSent(old(trace), Entry(snapshot, authority, old(trace), owned, stamp, now), outcome.Answers?)
      ensures lastError == if outcome.Fails? then outcome.error else NoError
    {
      lastSent := Some(snapshot.sequence);
      feedback := AfterExchange(feedback, snapshot.sequence, outcome);
      lastError := if outcome.Fails? then outcome.error else NoError;
      trace := WithSent(trace, Entry(snapshot, authority, trace, owned, stamp, now), outcome.Answers?);
    }

    method SnapshotCommands(stamp: real)
      requires OneTupleEach(commandStorage, |jointNames|)
      modifies this`snapshot
      ensures snapshot == CommandBatch(cycle, stamp, Tuples(commandStorage, |jointNames|))
    {
      var joints := ReadTuples(commandStorage, |jointNames|);
      snapshot := CommandBatch(cycle, stamp, joints);
    }

    /** One write: whose command goes out, what of it passes, and one exchange. Nothing is sent when
        a controller's batch is refused; the refusal latches protective. */
    method Write(stamp: real, now: real, outcome: Outcome) returns (ok: bool)
      requires Valid()
      modifies this`authority, this`cycle, this`feedback, this`lastSent, this`lastError,
        this`snapshot, this`trace, kernel
      ensures Valid() && Continues(trace, old(trace))
      ensures kernel.configured == old(kernel.configured) && kernel.envelopes == old(kernel.envelopes)
      ensures var next := NextAuthority(old(authority), OwnsAll(owned, |jointNames|));
        ok <==>
          hasTransport && (next.Controller? ==>
            MayPass(commandStorage, |jointNames|, old(kernel.envelopes), old(kernel.configured),
                    old(kernel.Previous()), now))
      ensures ok ==> Wrote(
        old(trace), trace, old(authority), authority, owned, Tuples(commandStorage, |jointNames|), outcome,
        stamp, now)
      ensures ok ==> lastError == if outcome.Fails? then outcome.error else NoError
      ensures ok && !authority.Protective? ==> LastBatch(trace).stamp == stamp
      ensures ok && authority.Protective? && !old(authority).Protective? ==> kernel.lastTrigger.CommandLoss?
      ensures !ok && hasTransport ==>
        RefusedFor(kernel.lastTrigger, Tuples(commandStorage, |jointNames|), old(kernel.envelopes),
                   old(kernel.configured), old(kernel.Previous()), now)
      ensures ok ==>
        && lastSent == Some(LastBatch(trace).sequence)
        && feedback == AfterExchange(old(feedback), lastSent.value, outcome)
      ensures ok && !authority.Protective? ==> lastSent == Some(old(cycle)) && cycle == old(cycle) + 1
      ensures ok && authority.Protective? ==>
        lastSent == Some(old(snapshot).sequence) && cycle == old(cycle)
      ensures !ok ==>
        && trace == old(trace) && feedback == old(feedback) && cycle == old(cycle)
        && (if hasTransport then authority.Protective? else authority == old(authority))
    {
      hide Coherent, SafetyKernel.Valid, SafetyKernel.Previous, OneTupleEach, Tuples, Passes, Damped,
        OwnsAll, AllFinite, AllRespect, AfterExchange, NextAuthority, Wrote, WithSent, Continues, LastBatch;
      ContinuesChain(trace, trace, trace);
      if !hasTransport {
        return false;
      }
      var was := authority;
      ghost var s, before := Now(), trace;
      CoherentIsLawful(s, trace, jointNames);
      AuthorityStep(was, OwnsAll(owned, |jointNames|));
      authority := NextAuthority(was, OwnsAll(owned, |jointNames|));
      if was.Controller? && authority.Protective? {
        EnterProtectiveState(CommandLoss);
      }
      if authority.Protective? {
        Resend(outcome, s, was, stamp, now);
        return true;
      }
      ok := Prepare(stamp, now);
      if !ok {
        StaysCoherent(s, before, jointNames, snapshot.joints, before.unanswered);
        return;
      }
      snapshot := snapshot.(sequence := cycle);
      Dispatch(outcome, s, was, stamp, now);
    }

    /** Outside protective: the batch of this cycle goes out, and the cycle is over. */
    method Dispatch(
      outcome: Outcome, ghost s: Status, ghost was: CommandAuthority, ghost stamp: real, ghost now: real)
      requires kernel.Valid() && OneTupleEach(commandStorage, |jointNames|)
      requires consecutiveBad == trace.unanswered % 256 && (transportActive ==> hasTransport)
      requires Coherent(s, trace, jointNames) && !authority.Protective?
      requires s.owned == owned && s.cycle == cycle && s.feedback == feedback && s.authority == was
      requires s.limits == Now().limits && (authority.Controller? ==> kernel.configured)
      requires kernel.Previous() == if authority.Controller? then Some(snapshot) else s.previous
      requires snapshot.sequence == cycle && snapshot.stamp == stamp && |snapshot.joints| == |jointNames|
      requires authority == NextAuthority(was, OwnsAll(owned, |jointNames|))
      requires
        if authority.Controller?
        then snapshot.joints == Tuples(commandStorage, |jointNames|) &&
             Passes(snapshot.joints, kernel.envelopes, s.previous, now)
        else Damped(snapshot.joints)
      modifies this`feedback, this`lastSent, this`lastError, this`trace, this`cycle
      ensures Valid() && Continues(trace, old(trace)) && cycle == old(cycle) + 1
      ensures Wrote(
        old(trace), trace, was, authority, owned, Tuples(commandStorage, |jointNames|), outcome, stamp, now)
      ensures lastSent == Some(snapshot.sequence) && LastBatch(trace) == snapshot
      ensures feedback == AfterExchange(old(feedback), snapshot.sequence, outcome)
      ensures lastError == if outcome.Fails? then outcome.error else NoError
    {
      hide Coherent, SafetyKernel.Valid, OneTupleEach, Tuples, Damped, OwnsAll, AfterExchange, NextAuthority,
        Wrote, WithSent, Continues, LastBatch, Passes, SafetyKernel.Previous;
      CoherentIsLawful(s, trace, jointNames);
      SendCoherent(s, trace, jointNames, snapshot, outcome, stamp, now);
      WroteIs(
        trace, jointNames, was, owned, Tuples(commandStorage, |jointNames|), snapshot, outcome, stamp, now);
      ExchangeOnce(outcome, stamp, now);
      cycle := cycle + 1;
    }

    /** The protective branch: the damped batch goes out again. */
    method Resend(
      outcome: Outcome, ghost s: Status, ghost was: CommandAuthority, ghost stamp: real, ghost now: real)
      requires kernel.Valid() && OneTupleEach(commandStorage, |jointNames|)
      requires consecutiveBad == trace.unanswered % 256 && (transportActive ==> hasTransport)
      requires Coherent(s, trace, jointNames) && authority.Protective?
      requires s.owned == owned && s.cycle == cycle && s.feedback == feedback
      requires s.limits == Now().limits && s.previous == kernel.Previous()
      requires Damped(snapshot.joints) && |snapshot.joints| == |jointNames|
      requires authority == NextAuthority(was, OwnsAll(owned, |jointNames|))
      modifies this`feedback, this`lastSent, this`lastError, this`trace
      ensures Valid() && Continues(trace, old(trace))
      ensures Wrote(
        old(trace), trace, was, authority, owned, Tuples(commandStorage, |jointNames|), outcome, stamp, now)
      ensures lastSent == Some(snapshot.sequence) && LastBatch(trace) == snapshot
      ensures feedback == AfterExchange(old(feedback), snapshot.sequence, outcome)
      ensures lastError == if outcome.Fails? then outcome.error else NoError
    {
      hide Coherent, SafetyKernel.Valid, OneTupleEach, Tuples, Damped, OwnsAll, AfterExchange, NextAuthority,
        Wrote, WithSent, Continues, LastBatch, SafetyKernel.Previous;
      CoherentIsLawful(s, trace, jointNames);
      ResendCoherent(s, trace, jointNames, snapshot, outcome, stamp, now);
      WroteIs(
        trace, jointNames, was, owned, Tuples(commandStorage, |jointNames|), snapshot, outcome, stamp, now);
      ExchangeOnce(outcome, stamp, now);
    }

    /** Any sequence of calls, with any transport behind it that echoes the sequence on success and
        leaves the feedback alone on failure. In every activation there has been: each batch sent was
        damping, or a controller's, finite and within every limit, with whole tuples claimed by
        accepted switches covering every joint at that write and at the one before; and after the
        first protective batch there was only damping. */
    method Live(calls: seq<SystemCall>)
      requires Valid()
      modifies this, kernel
      ensures Valid() && Continues(trace, old(trace)) && AllLawful(trace, jointNames)
      ensures owned == Owned(trace.history) && Safe(trace, |jointNames|)
    {
      hide Coherent, SafetyKernel.Valid, SafetyKernel.Previous, OneTupleEach, AllLawful, WholeTuples, Claims,
        NextAuthority, OwnsAll, Tuples, MayPass, AfterExchange, Damped, AnyFresh, AnswersCommand, Stops,
        States, Continues, Safe, WithChange, Wrote, LastBatch;
      ContinuesChain(trace, trace, trace);
      for n := 0 to |calls|
        invariant Valid() && Continues(trace, old(trace))
      {
        ghost var before := trace;
        match calls[n] {
          case CallConfigure(manifest, loads, configures, capable) =>
            if manifest.Some? ==> |manifest.value.envelopes| == |jointNames| {
              var _ := OnConfigure(manifest, loads, configures, capable);
            }
          case CallActivate(transportActivates) =>
            if hasTransport {
              var _ := OnActivate(transportActivates);
            }
          case CallDeactivate => OnDeactivate();
          case CallError => OnError();
          case CallShutdown => OnShutdown();
          case CallCleanup => OnCleanup();
          case CallSwitch(start, stop) =>
            var _ := PerformModeSwitch(start, stop);
          case CallSetCommand(i, value) =>
            if i < |commandStorage| {
              SetCommand(i, value);
            }
          case CallRead =>
            var _ := Read();
            CountingContinues(before, trace.unanswered);
          case CallWrite(stamp, now, outcome) =>
            var _ := Write(stamp, now, outcome);
        }
        ContinuesChain(before, before, before);
        ContinuesChain(old(trace), before, trace);
      }
      CoherentIsOwned(Now(), trace, jointNames);
      CoherentIsLawful(Now(), trace, jointNames);
      LawfulIsSafe(trace, jointNames);
    }

    /** The batch of a cycle that is not protective: the controllers' tuples through the gate, or
        damping. */
    method Prepare(stamp: real, now: real) returns (ok: bool)
      requires kernel.Valid() && (kernel.configured ==> |kernel.envelopes| == |jointNames|)
      requires OneTupleEach(commandStorage, |jointNames|) && !authority.Protective?
      modifies this`snapshot, this`authority, kernel
      ensures kernel.Valid() && kernel.configured == old(kernel.configured)
      ensures kernel.envelopes == old(kernel.envelopes)
      ensures |snapshot.joints| == |jointNames|
      ensures ok <==>
        !old(authority).Controller? ||
        MayPass(commandStorage, |jointNames|, old(kernel.envelopes), old(kernel.configured),
                old(kernel.Previous()), now)
      ensures ok ==> authority == old(authority) && snapshot.sequence == cycle && snapshot.stamp == stamp
      ensures ok && authority.Controller? ==>
        && snapshot.joints == Tuples(commandStorage, |jointNames|)
        && kernel.configured && kernel.Previous() == Some(snapshot)
        && Passes(snapshot.joints, kernel.envelopes, old(kernel.Previous()), now)
      ensures ok && !authority.Controller? ==>
        Damped(snapshot.joints) && kernel.Previous() == old(kernel.Previous())
      ensures !ok ==>
        && authority.Protective? && Damped(snapshot.joints) && kernel.Previous() == old(kernel.Previous())
        && RefusedFor(kernel.lastTrigger, Tuples(commandStorage, |jointNames|), kernel.envelopes,
                      old(kernel.configured), old(kernel.Previous()), now)
    {
      hide SafetyKernel.Valid, SafetyKernel.Previous, OneTupleEach, Tuples, Passes, Damped, AllFinite,
        AllRespect, RefusedFor;
      SnapshotCommands(stamp);
      if authority.Controller? {
        ok := Gate(now);
      } else {
        snapshot := ApplyDamping(snapshot);
        ok := true;
      }
    }

    /** The controller's batch is checked for finiteness and projected; a refused one is damped and
        latches protective. */
    method Gate(now: real) returns (ok: bool)
      requires kernel.Valid() && (kernel.configured ==> |kernel.envelopes| == |jointNames|)
      requires |snapshot.joints| == |jointNames|
      modifies this`snapshot, this`authority, kernel
      ensures kernel.Valid() && kernel.configured == old(kernel.configured)
      ensures kernel.envelopes == old(kernel.envelopes)
      ensures ok <==>
        old(kernel.configured) && Passes(old(snapshot).joints, kernel.envelopes, old(kernel.Previous()), now)
      ensures ok ==>
        && snapshot == old(snapshot) && authority == old(authority) && kernel.Previous() == Some(snapshot)
      ensures !ok ==>
        && authority.Protective? && |snapshot.joints| == |jointNames| && Damped(snapshot.joints)
        && kernel.Previous() == old(kernel.Previous())
        && RefusedFor(kernel.lastTrigger, old(snapshot).joints, kernel.envelopes, old(kernel.configured),
                      old(kernel.Previous()), now)
    {
      hide AllSlewOk, Damped, Blames, AcceptedRun, AllRespect, Respects;
      var finite, _ := FirstNonFinite(snapshot.joints);
      if !finite {
        EnterProtectiveState(NonFiniteCommand);
        return false;
      }
      var result, verdict := kernel.Project(snapshot, now);
      snapshot := result;
      if verdict.protectiveStateRequired {
        EnterProtectiveState(verdict.trigger);
        return false;
      }
      return true;
    }
  }

  datatype SystemCall =
    | CallConfigure(manifest: Option<Manifest>, loads: bool, configures: bool, capable: bool)
    | CallActivate(transportActivates: bool)
    | CallDeactivate
    | CallError
    | CallShutdown
    | CallCleanup
    | CallSwitch(start: seq<string>, stop: seq<string>)
    | CallSetCommand(i: nat, value: Num)
    | CallRead
    | CallWrite(stamp: real, now: real, outcome: Outcome)

  lemma CountingContinues(t: Trace, n: nat)
    ensures Continues(t.(unanswered := n), t)
  {
  }

  lemma CoherentIsOwned(s: Status, t: Trace, jointNames: seq<string>)
    requires Coherent(s, t, jointNames)
    ensures s.owned == Owned(t.history)
  {
    hide AllLawful, NoneProtective, Damped, Owned, AuthorityAfter;
  }

  /** The batch last handed to the transport. */
  function LastBatch(t: Trace): CommandBatch {
    if t.Current() == [] then CommandBatch(0, 0.0, []) else t.Current()[|t.Current()| - 1].batch
  }

  /** Why a controller's batch was refused: the first of its joints that was not finite, or that broke a
      limit and which. */
  ghost predicate RefusedFor(
    trigger: Trigger, joints: seq<JointCommand>, envelopes: seq<Envelope>, configured: bool,
    previous: Option<CommandBatch>, now: real)
  {
    if !AllFinite(joints) then trigger.NonFiniteCommand?
    else if !configured then trigger.NotConfigured?
    else exists v: SafetyKernels.Verdict :: v.trigger == trigger && Blames(v, joints, envelopes, previous, now)
  }

  /** One batch was added to the current run: the controllers' tuples when a controller commands,
      damping otherwise, with the ownership this write saw, and outside protective with its own stamp. */
  ghost predicate Wrote(
    before: Trace, after: Trace, was: CommandAuthority, now: CommandAuthority, owned: JointMask,
    wanted: seq<JointCommand>, outcome: Outcome, stamp: real, clock: real)
  {
    && |after.Current()| == |before.Current()| + 1
    && var e := after.Current()[|before.Current()|];
      && after == WithSent(before, e, outcome.Answers?)
      && now == NextAuthority(was, OwnsAll(owned, |wanted|)) == e.authority
      && e.mask == owned && EntryNow(e, before.history) && e.stamp == stamp && e.now == clock
      && (!now.Protective? ==> e.batch.stamp == stamp)
      && (if now.Controller? then e.batch.joints == wanted else Damped(e.batch.joints))
  }

  lemma WroteIs(
    before: Trace, jointNames: seq<string>, was: CommandAuthority,
    owned: JointMask, wanted: seq<JointCommand>, batch: CommandBatch, outcome: Outcome, stamp: real,
    clock: real)
    requires AllLawful(before, jointNames) && owned == Owned(before.history)
    requires var now := NextAuthority(was, OwnsAll(owned, |wanted|));
      && (!now.Protective? ==> batch.stamp == stamp)
      && if now.Controller? then batch.joints == wanted else Damped(batch.joints)
    ensures var now := NextAuthority(was, OwnsAll(owned, |wanted|));
      var after := WithSent(before, Entry(batch, now, before, owned, stamp, clock), outcome.Answers?);
      && Wrote(before, after, was, now, owned, wanted, outcome, stamp, clock)
      && LastBatch(after) == batch && after.unanswered == before.unanswered
  {
    hide Damped, NextAuthority, OwnsAll, RunLawful, MasksTrue, AllAccepted, AllSlewKept, Owned, Limits, Configs;
  }

  lemma AuthorityStep(was: CommandAuthority, allOwned: bool)
    ensures var next := NextAuthority(was, allOwned);
      && (next.Protective? <==> was.Protective? || (was.Controller? && !allOwned))
      && (next.Controller? <==> allOwned && (was.Claimed? || was.Controller?))
  {
  }
}
