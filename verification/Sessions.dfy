/** One session after another: activate, serve, deactivate. What an activation supposes of the commands
    still about, the session before it leaves true. */
module Sessions {
  import opened Wrappers
  import opened Telemetry
  import opened JointWiring
  import opened JointPolicy
  import opened DriveSm
  import opened Channel
  import opened Rearming
  import opened MasterReports
  import opened CommandFrames
  import opened Traffics
  import opened Stm32Transports

  datatype Plan = Plan(
    clearPatience: nat, capturePatience: nat, armPatience: nat, releasePatience: nat, calls: seq<Call>,
    stopPatience: nat)

  /** What a session did: the worlds it found, armed and left; the motors it captured, where it held
      them, and the report that showed them armed, or if it failed that found them to be captured; the
      joints it never isolated; whether its release was confirmed. */
  datatype Record = Record(
    before: World, ok: bool, armed: World, hold: seq<i16>, slots: seq<Slot>, shown: nat, open: set<nat>,
    confirmed: bool, after: World)

  /** The session armed what it captured, and nothing it armed was ever armed again; or it failed, and
      captured each joint's motor if any. */
  ghost predicate Proper(r: Record, l: Layout, maxAgeUs: nat) {
    if r.ok then
      && AllNoReset(r.armed) && |r.slots| == |l.joints|
      && Holding(r.armed, r.before.delivered, l, r.hold, maxAgeUs, r.slots, Unisolated(|l.joints|, {}))
      && forall j :: 0 <= j < |l.joints| ==> NeverRearmed(r.after, r.shown, r.slots[j])
    else
      r.slots == [] ||
      (r.before.delivered <= r.shown < |r.after.tele| &&
       TakenAll(r.after.tele[r.shown], l.joints, r.slots))
  }

  // ---- How a session may end ----

  /** Joint i was armed by the report m at the latest: by every report of a session that was activated,
      and otherwise if the report says so. */
  ghost predicate ArmedBy(r: Record, i: nat, m: nat)
    requires i < |r.slots|
  {
    && r.shown <= m < |r.after.tele|
    && (r.ok || (There(r.after.tele[m], r.slots[i]) && IsArmed(The(r.after.tele[m], r.slots[i]).driveState)))
  }

  /** A joint never isolated, and undisturbed since, was armed and later reported DISABLED. */
  ghost predicate HeardOff(r: Record, l: Layout)
    requires ValidLayout(l) && Sound(r.after) && |r.slots| == |l.joints|
  {
    exists i: nat, m: nat, n: nat :: i in r.open && i < |l.joints| && m <= n < |r.after.tele| &&
      ArmedBy(r, i, m) && ShownOff(r.after, n, l, i) && UndisturbedIn(r.after, r.slots[i])
  }

  /** The dead-man has tripped since a joint was armed. */
  ghost predicate LostSince(r: Record, l: Layout)
    requires |r.slots| == |l.joints|
  {
    r.after.master.hostLost && exists i: nat, m: nat :: i < |l.joints| && ArmedBy(r, i, m)
  }

  ghost predicate AllUndisturbed(r: Record) {
    forall x :: x in r.slots ==> UndisturbedIn(r.after, x)
  }

  /** Every motor undisturbed, the release was confirmed. */
  ghost predicate Confirmed(r: Record) {
    r.ok && r.confirmed && AllUndisturbed(r)
  }

  /** The session failed before it had captured anything; or in one of these three ways it is known that
      nothing is left to arm a joint, and either every motor it armed is undisturbed or every report has
      been delivered. */
  ghost predicate Calm(r: Record, l: Layout)
    requires ValidLayout(l)
  {
    && Sound(r.after)
    && if r.slots == [] then !r.ok
       else
         && |r.slots| == |l.joints| && (HeardOff(r, l) || LostSince(r, l) || Confirmed(r))
         && ((r.ok && AllUndisturbed(r)) || r.after.delivered == |r.after.tele|)
  }

  ghost predicate ShownOff(w: World, seen: nat, l: Layout, j: nat)
    requires ValidLayout(l) && Sound(w) && seen < |w.tele| && j < |l.joints|
  {
    LayoutPlaced(l);
    Reports(MotorOf(Report(w, seen), l.joints[j]), Disabled)
  }

  /** What is known at the end: each joint was launched, or failing that captured, and is closed; and
      every joint was asked for together with an open one. */
  ghost predicate Closed(r: Record, l: Layout) {
    && |r.slots| == |l.joints|
    && (if r.ok then LaunchedAll(r.after, r.shown, r.slots, l.joints, {}) && r.shown < |r.after.tele|
        else ReadyingAll(r.after, r.shown, r.slots, l.joints, false))
    && forall i: nat, j: nat :: i in r.open && i < |l.joints| && j < |l.joints| ==>
      TogetherJoints(r.after, i, j, l.joints)
  }

  lemma ArmedIsLaunched(r: Record, l: Layout, i: nat, m: nat)
    requires Closed(r, l) && i < |l.joints| && ArmedBy(r, i, m)
    ensures exists from: nat :: from <= m && LaunchedJoint(r.after, from, r.slots[i], i, l.joints, {})
  {
    hide Launched, There, TogetherJoints;
    if r.ok {
      assert LaunchedJoint(r.after, r.shown, r.slots[i], i, l.joints, {});
    } else {
      assert ReadyingJoint(r.after, r.shown, r.slots[i], i, l.joints, false);
      assert LaunchedJoint(r.after, m, r.slots[i], i, l.joints, {});
    }
  }

  /** One joint heard to be off, and nothing is left that would arm any. */
  lemma HeardOffQuiets(r: Record, l: Layout)
    requires ValidLayout(l) && Sound(r.after) && Closed(r, l) && HeardOff(r, l)
    ensures AllQuiet(r.after, l.joints)
  {
    hide ValidLayout, Sound, LaunchedJoint, UndisturbedIn, TogetherJoints, View, MotorOf, ArmedBy, QuietMail;
    LayoutPlaced(l);
    var i: nat, m: nat, n: nat :| i in r.open && i < |l.joints| && m <= n < |r.after.tele| &&
      ArmedBy(r, i, m) && ShownOff(r.after, n, l, i) && UndisturbedIn(r.after, r.slots[i]);
    ArmedIsLaunched(r, l, i, m);
    var from: nat :| from <= m && LaunchedJoint(r.after, from, r.slots[i], i, l.joints, {});
    forall j | 0 <= j < |l.joints|
      ensures QuietMail(r.after, l.joints[j].chain, l.joints[j].motor)
    {
      OneOffQuiets(r.after, from, n, l.joints, r.slots[i], i, j);
    }
  }

  lemma ClosedCount(r: Record, l: Layout)
    requires Closed(r, l)
    ensures |r.slots| == |l.joints|
  {
  }

  lemma LostSinceQuiets(r: Record, l: Layout)
    requires Closed(r, l) && LostSince(r, l)
    ensures AllQuiet(r.after, l.joints)
  {
    hide LaunchedJoint, ArmedBy, QuietMail, Closed;
    ClosedCount(r, l);
    var i: nat, m: nat :| i < |l.joints| && ArmedBy(r, i, m);
    ArmedIsLaunched(r, l, i, m);
    var from: nat :| from <= m && LaunchedJoint(r.after, from, r.slots[i], i, l.joints, {});
    LostQuiets(r.after, from, r.slots[i], i, l.joints, {});
  }

  /** Every joint heard to be off quiets each by itself. */
  lemma AllOffQuiets(r: Record, l: Layout, from: nat)
    requires ValidLayout(l) && Sound(r.after) && Closed(r, l) && Confirmed(r)
    requires r.shown <= from && ShowedOff(r.after, from, l)
    ensures AllQuiet(r.after, l.joints)
  {
    hide ValidLayout, LaunchedJoint, UndisturbedIn, View, MotorOf, Sound, Together, QuietMail;
    LayoutPlaced(l);
    SoundDelivered(r.after);
    var seen :| from <= seen < r.after.delivered && AllOff(r.after, seen, l);
    forall j | 0 <= j < |l.joints|
      ensures QuietMail(r.after, l.joints[j].chain, l.joints[j].motor)
    {
      TogetherWithItself(r.after, j, l.joints);
      OneOffQuiets(r.after, r.shown, seen, l.joints, r.slots[j], j, j);
    }
  }

  lemma TogetherWithItself(w: World, j: nat, joints: seq<Wiring>)
    requires j < |joints|
    ensures TogetherJoints(w, j, j, joints)
  {
    hide QuietAt, Live;
  }

  /** A calm end settles every joint. */
  lemma CalmSettles(r: Record, l: Layout, from: nat)
    requires ValidLayout(l) && Closed(r, l) && r.slots != [] && Calm(r, l)
    requires r.shown <= from && (Confirmed(r) ==> ShowedOff(r.after, from, l))
    requires r.ok ==> r.shown <= r.after.delivered
    ensures SettledJoints(r.after, r.after.delivered, l.joints)
  {
    hide ValidLayout, Closed, ShowedOff, Sound, HeardOff, LostSince, Confirmed, QuietMail, UndisturbedIn,
      SettledJoint;
    if HeardOff(r, l) {
      HeardOffQuiets(r, l);
    } else if LostSince(r, l) {
      LostSinceQuiets(r, l);
    } else {
      AllOffQuiets(r, l, from);
    }
    if r.after.delivered == |r.after.tele| {
      AllQuietIsSettled(r.after, l.joints);
    } else {
      UndisturbedSettles(r, l);
      SettledLater(r.after, r.shown, r.after.delivered, l.joints);
    }
  }

  lemma UndisturbedSettles(r: Record, l: Layout)
    requires Sound(r.after) && Closed(r, l) && r.ok && AllUndisturbed(r) && AllQuiet(r.after, l.joints)
    ensures SettledJoints(r.after, r.shown, l.joints)
  {
    hide Sound, LaunchedJoint, UndisturbedIn, QuietMail, SettledJoint, TogetherJoints;
    forall j | 0 <= j < |l.joints|
      ensures SettledJoint(r.after, r.shown, l.joints[j])
    {
      assert r.slots[j] in r.slots;
      QuietIsSettled(r.after, r.shown, r.slots[j], j, l.joints);
    }
  }

  // ---- One session ----

  /** Serving and releasing close what the activation launched. */
  lemma SessionCloses(r: Record, served: World, l: Layout, all: set<nat>)
    requires LaunchedAll(r.armed, r.shown, r.slots, l.joints, all) && AllTogether(r.armed, l.joints)
    requires Serves(r.armed, served, l.joints, all, r.open) && r.ok && r.shown < |r.after.tele|
    requires Evolves(served, r.after, Harmless, l.joints, r.hold)
    ensures Closed(r, l)
  {
    hide LaunchedJoint, TogetherJoints, Sound, Extends, KeepsSettled, KeepsUnarmed, KeepsFaults, KeepsAim,
      KeepsReadying;
    forall j | 0 <= j < |l.joints|
      ensures LaunchedJoint(r.after, r.shown, r.slots[j], j, l.joints, {})
    {
      assert LaunchedJoint(r.armed, r.shown, r.slots[j], j, l.joints, all);
      assert LaunchedJoint(served, r.shown, r.slots[j], j, l.joints, r.open);
      Narrowed(served, r.shown, r.slots[j], j, l.joints, r.open, {});
      assert LaunchedJoint(served, r.shown, r.slots[j], j, l.joints, {});
    }
    forall i: nat, j: nat | i in r.open && i < |l.joints| && j < |l.joints|
      ensures TogetherJoints(r.after, i, j, l.joints)
    {
      assert TogetherJoints(r.armed, i, j, l.joints);
      assert TogetherJoints(served, i, j, l.joints);
    }
  }

  lemma ClosedNeverRearms(r: Record, l: Layout)
    requires Closed(r, l) && r.ok
    ensures |r.slots| == |l.joints|
    ensures forall j :: 0 <= j < |r.slots| ==> NeverRearmed(r.after, r.shown, r.slots[j])
  {
    hide Launched, NeverRearmed, TogetherJoints;
    forall j | 0 <= j < |r.slots|
      ensures NeverRearmed(r.after, r.shown, r.slots[j])
    {
      assert LaunchedJoint(r.after, r.shown, r.slots[j], j, l.joints, {});
      LaunchedNeverRearms(r.after, r.shown, r.slots[j], false);
    }
  }

  /** An activation that failed. */
  lemma FailureEnds(r0: Record, l: Layout, maxAgeUs: nat) returns (r: Record)
    requires ValidLayout(l) && !r0.ok && r0.open == Unisolated(|l.joints|, {})
    requires LeftBehind(r0.after, r0.before.delivered, l, r0.slots)
    requires r0.before.delivered <= r0.after.delivered
    ensures r == r0.(shown := r.shown) && Proper(r, l, maxAgeUs)
    ensures Calm(r, l) ==> SettledJoints(r.after, r.after.delivered, l.joints)
  {
    hide ValidLayout, SettledJoints, Sound, HeardOff, LostSince, Confirmed, TakenAll, ReadyingAll,
      TogetherJoints, ShowedOff;
    r := r0;
    if r.slots == [] {
      SettledLater(r.after, r.before.delivered, r.after.delivered, l.joints);
    } else {
      var at :| r.before.delivered <= at < r.after.delivered <= |r.after.tele| &&
        UnfinishedAt(r.after, at, l, r.slots);
      r := r.(shown := at);
      TakenCount(r.after.tele[at], l.joints, r.slots);
      if Calm(r, l) {
        NotConfirmed(r);
        CalmSettles(r, l, at);
      }
    }
  }

  /** A link that was down already: nothing happened. */
  lemma NothingTried(r: Record, l: Layout, maxAgeUs: nat)
    requires ValidLayout(l) && !r.ok && r.slots == [] && r.after == r.before
    requires SettledJoints(r.before, r.before.delivered, l.joints)
    ensures Proper(r, l, maxAgeUs) && SettledJoints(r.after, r.after.delivered, l.joints)
  {
  }

  lemma NotConfirmed(r: Record)
    requires !r.ok
    ensures !Confirmed(r)
  {
  }

  lemma SessionEnds(r0: Record, served: World, l: Layout, maxAgeUs: nat, all: set<nat>)
    returns (r: Record)
    requires ValidLayout(l) && all == Unisolated(|l.joints|, {}) && r0.ok && Sound(r0.after)
    requires AllNoReset(r0.armed) && AllTogether(r0.armed, l.joints)
    requires Holding(r0.armed, r0.before.delivered, l, r0.hold, maxAgeUs, r0.slots, all)
    requires Serves(r0.armed, served, l.joints, all, r0.open) && Extends(served, r0.armed)
    requires Evolves(served, r0.after, Harmless, l.joints, r0.hold)
    requires r0.confirmed ==> ShowedOff(r0.after, served.delivered, l)
    ensures r == r0.(shown := r.shown) && Proper(r, l, maxAgeUs)
    ensures Calm(r, l) ==> SettledJoints(r.after, r.after.delivered, l.joints)
  {
    hide ValidLayout, Serves, AllNoReset, HeldFrom, TakenAll, LaunchedAll, Closed, NeverRearmed, SettledJoints,
      Sound, ShowedOff, Grows, KeepsSettled, KeepsUnarmed, KeepsFaults, KeepsAim, KeepsLaunched, KeepsTogether,
      KeepsReadying, AllTogether, HeardOff, LostSince, AllUndisturbed;
    SoundDelivered(r0.after);
    var at, shown :| r0.before.delivered <= at <= shown < r0.armed.delivered <= |r0.armed.tele| &&
      HoldingSince(r0.armed, at, shown, l, r0.hold, maxAgeUs, r0.slots, all);
    r := r0.(shown := shown);
    SessionCloses(r, served, l, all);
    ClosedNeverRearms(r, l);
    if Calm(r, l) {
      CalmSettles(r, l, served.delivered);
    }
  }

  /** One session. From a settled world it arms only what it captured and nothing twice, whatever is
      called while it lasts; and if it ends calmly it leaves a settled world. */
  method Session(t: Stm32Transport, plan: Plan) returns (ok: bool, stuck: Option<nat>, ghost r: Record)
    requires t.Valid() && !t.active && !t.monitorOnly
    modifies t
    ensures t.Valid() && !t.active && r.before == old(t.world) && r.after == t.world && r.ok == ok
    ensures ok ==>
      && r.confirmed == (stuck.None? && !Deactivates(plan.calls))
      && (!Deactivates(plan.calls) ==>
            r.open == Unisolated(|t.layout.joints|, Isolates(plan.calls, |t.layout.joints|)))
    ensures old(SettledJoints(t.world, t.world.delivered, t.layout.joints)) ==>
      && Proper(r, t.layout, t.maxAgeUs)
      && (Calm(r, t.layout) ==> SettledJoints(t.world, t.world.delivered, t.layout.joints))
  {
    hide ValidLayout, Indexed, Sound, Evolves, SettledJoints, AllNoReset, Holding, Showed, LogGrew, Extends,
      ArmingLog, AllTogether, ReleasedLog, ShowedOff, Serves, KeepsFaults, Proper, Calm, Closed;
    ghost var before := t.world;
    ghost var slots;
    ok, stuck, slots := t.Activate(
      plan.clearPatience, plan.capturePatience, plan.armPatience, plan.releasePatience);
    if !ok {
      r := Record(before, ok, t.world, t.holdPos, slots, 0, Unisolated(|t.layout.joints|, {}), false, t.world);
      if SettledJoints(before, before.delivered, t.layout.joints) {
        if before.failed {
          r := r.(slots := []);
          NothingTried(r, t.layout, t.maxAgeUs);
        } else {
          ExtendsTele(before, t.world);
          r := FailureEnds(r, t.layout, t.maxAgeUs);
        }
      }
      return;
    }
    ghost var armed, all := t.world, t.Open();
    t.Serve(plan.calls);
    ghost var served, open, serving := t.world, t.Open(), t.active;
    stuck := t.Deactivate(plan.stopPatience, plan.releasePatience);
    r := Record(before, ok, armed, t.holdPos, slots, 0, open, serving && stuck.None?, t.world);
    if SettledJoints(before, before.delivered, t.layout.joints) {
      r := SessionEnds(r, served, t.layout, t.maxAgeUs, all);
    }
  }

  ghost predicate AllCalm(records: seq<Record>, l: Layout)
    requires ValidLayout(l)
  {
    forall n :: 0 <= n < |records| ==> Calm(records[n], l)
  }

  /** Each session in turn was proper, as long as all before it were calm. */
  ghost predicate ProperWhileCalm(records: seq<Record>, l: Layout, maxAgeUs: nat)
    requires ValidLayout(l)
  {
    forall n :: 0 <= n < |records| && AllCalm(records[..n], l) ==> Proper(records[n], l, maxAgeUs)
  }

  lemma OneMore(records: seq<Record>, r: Record, l: Layout, maxAgeUs: nat)
    requires ValidLayout(l) && ProperWhileCalm(records, l, maxAgeUs)
    requires AllCalm(records, l) ==> Proper(r, l, maxAgeUs)
    ensures ProperWhileCalm(records + [r], l, maxAgeUs)
    ensures AllCalm(records + [r], l) <==> AllCalm(records, l) && Calm(r, l)
  {
    hide Proper, Calm, ValidLayout;
    var all := records + [r];
    forall n | 0 <= n < |all| && AllCalm(all[..n], l)
      ensures Proper(all[n], l, maxAgeUs)
    {
      assert n <= |records| && all[..n] == records[..n] && records[..|records|] == records;
    }
    assert forall n :: 0 <= n < |records| ==> all[n] == records[n];
    assert AllCalm(all, l) ==> Calm(all[|records|], l);
  }

  /** Sessions in sequence, on a robot whose commands were settled before the first. */
  method Run(t: Stm32Transport, plans: seq<Plan>) returns (ghost records: seq<Record>)
    requires t.Valid() && !t.active && !t.monitorOnly
    requires SettledJoints(t.world, t.world.delivered, t.layout.joints)
    modifies t
    ensures t.Valid() && !t.active && |records| == |plans|
    ensures ProperWhileCalm(records, t.layout, t.maxAgeUs)
  {
    hide ValidLayout, Indexed, Sound, SettledJoints, Proper, Calm;
    records := [];
    for n := 0 to |plans|
      invariant t.Valid() && !t.active && |records| == n
      invariant ProperWhileCalm(records, t.layout, t.maxAgeUs)
      invariant AllCalm(records, t.layout) ==> SettledJoints(t.world, t.world.delivered, t.layout.joints)
    {
      var _, _, r := Session(t, plans[n]);
      OneMore(records, r, t.layout, t.maxAgeUs);
      records := records + [r];
    }
  }
}
