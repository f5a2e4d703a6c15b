/** What the hardware component has done, kept as history: every mode switch it accepted, and every
    batch it handed to its transport, activation by activation. */
module CommandTraces {
  import opened Wrappers
  import opened BatchTypes
  import opened SafetyKernels
  import opened TupleOwnership

  // ---- Who owns what, and within which limits ----

  /** A switch accepted, by the interface names it gave; every interface withdrawn; or the safety
      kernel configured. */
  datatype Change =
    | Switched(start: seq<string>, stop: seq<string>, claims: TupleClaims)
    | Withdrawn
    | Limited(envelopes: seq<Envelope>)

  function OwnedThen(owned: JointMask, c: Change): JointMask {
    match c
    case Switched(_, _, claims) => ApplyClaims(owned, claims)
    case Withdrawn => {}
    case Limited(_) => owned
  }

  function Owned(history: seq<Change>): JointMask {
    if history == [] then {} else OwnedThen(Owned(history[..|history| - 1]), history[|history| - 1])
  }

  /** The envelopes the kernel was last configured with. */
  function Limits(history: seq<Change>): seq<Envelope> {
    if history == [] then []
    else if history[|history| - 1].Limited? then history[|history| - 1].envelopes
    else Limits(history[..|history| - 1])
  }

  /** How often it has been configured. */
  function Configs(history: seq<Change>): nat {
    if history == [] then 0
    else Configs(history[..|history| - 1]) + if history[|history| - 1].Limited? then 1 else 0
  }

  /** Under one configuration the limits are the same. */
  lemma {:induction false} SameConfigSameLimits(history: seq<Change>, a: nat, b: nat)
    requires a <= b <= |history|
    ensures Configs(history[..a]) <= Configs(history[..b])
    ensures Configs(history[..a]) == Configs(history[..b]) ==> Limits(history[..a]) == Limits(history[..b])
    decreases b
  {
    if a == b {
    } else {
      assert history[..b][..b - 1] == history[..b - 1];
      SameConfigSameLimits(history, a, b - 1);
    }
  }

  /** Every switch named whole tuples, and claimed exactly those; the kernel always had one envelope
      for each joint. */
  ghost predicate AllAccepted(history: seq<Change>, jointNames: seq<string>) {
    forall i :: 0 <= i < |history| ==> IsAccepted(history[i], jointNames)
  }

  ghost predicate IsAccepted(c: Change, jointNames: seq<string>) {
    match c
    case Switched(start, stop, claims) =>
      WholeTuples(start, jointNames) && WholeTuples(stop, jointNames) && Claims(claims, start, stop, jointNames)
    case Withdrawn => true
    case Limited(envelopes) => |envelopes| == |jointNames|
  }

  /** The claims of the switches, in order. */
  function ClaimsIn(history: seq<Change>): seq<TupleClaims> {
    if history == [] then []
    else
      var last := history[|history| - 1];
      ClaimsIn(history[..|history| - 1]) + if last.Switched? then [last.claims] else []
  }

  lemma HistorySnoc(history: seq<Change>, c: Change)
    ensures Owned(history + [c]) == OwnedThen(Owned(history), c)
    ensures Limits(history + [c]) == if c.Limited? then c.envelopes else Limits(history)
    ensures ClaimsIn(history + [c]) == ClaimsIn(history) + if c.Switched? then [c.claims] else []
  {
    hide OwnedThen;
    assert (history + [c])[..|history|] == history;
  }

  lemma ApplyAllSnoc(owned: JointMask, claims: seq<TupleClaims>, c: TupleClaims)
    ensures ApplyAll(owned, claims + [c]) == ApplyClaims(ApplyAll(owned, claims), c)
  {
    hide ApplyClaims;
    assert (claims + [c])[..|claims|] == claims;
  }

  /** What is owned is what the switches accepted since the last withdrawal make of nothing. */
  lemma {:induction false} OwnedSinceWithdrawal(before: seq<Change>, after: seq<Change>)
    requires forall c :: c in after ==> !c.Withdrawn?
    ensures Owned(before + [Withdrawn] + after) == ApplyAll({}, ClaimsIn(after))
    decreases |after|
  {
    hide Owned, ClaimsIn, ApplyAll, ApplyClaims, Limits;
    if after == [] {
      HistorySnoc(before, Withdrawn);
      assert before + [Withdrawn] + after == before + [Withdrawn];
      NothingClaimed();
    } else {
      var rest, c := after[..|after| - 1], after[|after| - 1];
      assert c in after && after == rest + [c];
      OwnedSinceWithdrawal(before, rest);
      assert before + [Withdrawn] + after == (before + [Withdrawn] + rest) + [c];
      HistorySnoc(before + [Withdrawn] + rest, c);
      HistorySnoc(rest, c);
      if c.Switched? {
        ApplyAllSnoc({}, ClaimsIn(rest), c.claims);
      } else {
        assert ClaimsIn(after) == ClaimsIn(rest);
      }
    }
  }

  lemma NothingClaimed()
    ensures ApplyAll({}, ClaimsIn([])) == {}
  {
  }

  predicate OwnsAll(owned: JointMask, n: nat) {
    (forall j | 0 <= j < n :: j in owned) && (forall j | j in owned :: j < n)
  }

  // ---- What was sent ----

  /** A batch, whose it was, how many changes the write had behind it, and the ownership, limits and
      number of configurations they left; when the write took its snapshot, and its clock at the check. */
  datatype Sent = Sent(
    batch: CommandBatch, authority: CommandAuthority, seen: nat, mask: JointMask, limits: seq<Envelope>,
    config: nat, stamp: real, now: real)

  /** All-zero damping on every joint; or a controller's batch, finite and within every limit. Outside
      protective it is stamped with the time of its own write. */
  ghost predicate Lawful(e: Sent, n: nat) {
    && |e.batch.joints| == n && (!e.authority.Protective? ==> e.batch.stamp == e.stamp)
    && (|| Damped(e.batch.joints)
        || (&& e.authority.Controller?
            && AllFinite(e.batch.joints) && AllRespect(e.batch.joints, e.limits)))
  }

  /** Whether each write saw every joint owned. */
  function Saw(run: seq<Sent>, n: nat): (writes: seq<bool>)
    ensures |writes| == |run|
  {
    seq(|run|, i requires 0 <= i < |run| => OwnsAll(run[i].mask, n))
  }

  /** Outside protective: the entry's sequence is its place, and its authority is what the writes so
      far have earned. */
  ghost predicate InPlace(run: seq<Sent>, i: nat, n: nat)
    requires i < |run|
  {
    !run[i].authority.Protective? ==>
      && run[i].batch.sequence == i
      && run[i].authority == AuthorityAfter(AwaitingClaim, Saw(run[..i + 1], n))
  }

  /** One activation's batches: each lawful and in its place, and protective ever after the first
      that is. */
  ghost predicate RunLawful(run: seq<Sent>, n: nat) {
    && (forall i :: 0 <= i < |run| ==> Lawful(run[i], n))
    && (forall i :: 0 <= i < |run| ==> InPlace(run, i, n))
    && (forall i, j :: 0 <= i < j < |run| && run[i].authority.Protective? ==> run[j].authority.Protective?)
  }

  /** Mask, limits and configuration are what the history had made of them by the write. */
  predicate EntryTrue(e: Sent, history: seq<Change>) {
    && e.seen <= |history| && e.mask == Owned(history[..e.seen])
    && e.limits == Limits(history[..e.seen]) && e.config == Configs(history[..e.seen])
  }

  ghost predicate MasksTrue(run: seq<Sent>, history: seq<Change>) {
    && (forall i :: 0 <= i < |run| ==> EntryTrue(run[i], history))
    && (forall i, j :: 0 <= i < j < |run| ==> run[i].seen <= run[j].seen)
  }

  ghost predicate NoneProtective(run: seq<Sent>) {
    forall i :: 0 <= i < |run| ==> !run[i].authority.Protective?
  }

  /** Outside protective, sequences strictly increase. */
  lemma SequencesIncrease(run: seq<Sent>, n: nat, i: nat, j: nat)
    requires RunLawful(run, n) && i < j < |run| && !run[j].authority.Protective?
    ensures !run[i].authority.Protective? && run[i].batch.sequence < run[j].batch.sequence
  {
    hide Lawful, Saw;
    assert InPlace(run, i, n) && InPlace(run, j, n);
  }

  /** At the entry, whole tuples claimed by accepted switches covered every joint. */
  ghost predicate OwnedAt(run: seq<Sent>, i: nat, history: seq<Change>, n: nat)
    requires i < |run|
  {
    run[i].seen <= |history| && OwnsAll(Owned(history[..run[i].seen]), n)
  }

  /** The batch is damping; or a controller's, finite and within every limit, with every joint owned
      at this write and at the one before, and nothing protective up to it. */
  ghost predicate Earned(
    run: seq<Sent>, i: nat, history: seq<Change>, n: nat)
    requires i < |run|
  {
    || Damped(run[i].batch.joints)
    || (&& i > 0 && run[i].authority.Controller? && NoneProtective(run[..i + 1])
        && OwnedAt(run, i, history, n) && OwnedAt(run, i - 1, history, n)
        && AllFinite(run[i].batch.joints)
        && AllRespect(run[i].batch.joints, Limits(history[..run[i].seen])))
  }

  /** Every batch of a lawful run is earned. */
  lemma EveryBatchIsEarned(
    run: seq<Sent>, i: nat, history: seq<Change>, n: nat)
    requires RunLawful(run, n) && MasksTrue(run, history) && i < |run|
    ensures Earned(run, i, history, n)
  {
    hide Damped, AllFinite, AllRespect, OwnsAll, AuthorityAfter, Owned;
    assert Lawful(run[i], n) && InPlace(run, i, n);
    if !Damped(run[i].batch.joints) {
      var writes := Saw(run[..i + 1], n);
      ControllerNeedsTwoOwnedWrites(writes);
      assert OwnedTwice(writes);
      assert writes[i] == OwnsAll(run[i].mask, n) && writes[i - 1] == OwnsAll(run[i - 1].mask, n);
    }
  }

  /** Once protective, only damping is sent for the rest of the run. */
  lemma ProtectiveMeansDamping(run: seq<Sent>, n: nat, i: nat, j: nat)
    requires RunLawful(run, n) && i <= j < |run| && run[i].authority.Protective?
    ensures run[j].authority.Protective? && Damped(run[j].batch.joints)
  {
    hide Damped, InPlace;
    assert Lawful(run[j], n);
  }

  /** One more batch. */
  lemma RunExtends(run: seq<Sent>, e: Sent, n: nat, was: CommandAuthority)
    requires RunLawful(run, n) && Lawful(e, n)
    requires !e.authority.Protective? ==>
      && NoneProtective(run) && e.batch.sequence == |run|
      && was == AuthorityAfter(AwaitingClaim, Saw(run, n))
      && e.authority == NextAuthority(was, OwnsAll(e.mask, n))
    ensures RunLawful(run + [e], n)
    ensures !e.authority.Protective? ==>
      && NoneProtective(run + [e])
      && e.authority == AuthorityAfter(AwaitingClaim, Saw(run + [e], n))
  {
    hide Lawful, NextAuthority, OwnsAll;
    var next := run + [e];
    assert Saw(next, n)[..|run|] == Saw(run, n);
    forall i | 0 <= i < |next|
      ensures InPlace(next, i, n)
    {
      if i < |run| {
        assert InPlace(run, i, n) && next[..i + 1] == run[..i + 1];
      } else {
        assert next[..i + 1] == next;
      }
    }
  }

  lemma MasksExtend(run: seq<Sent>, e: Sent, history: seq<Change>)
    requires MasksTrue(run, history) && e.seen == |history|
    requires e.mask == Owned(history) && e.limits == Limits(history) && e.config == Configs(history)
    ensures MasksTrue(run + [e], history)
  {
    hide Owned, Limits, Configs;
    assert history[..|history|] == history;
  }

  lemma MasksStayTrue(run: seq<Sent>, history: seq<Change>, c: Change)
    requires MasksTrue(run, history)
    ensures MasksTrue(run, history + [c])
  {
    hide Owned, Limits, Configs;
    forall i | 0 <= i < |run|
      ensures EntryTrue(run[i], history + [c])
    {
      assert EntryTrue(run[i], history);
      assert (history + [c])[..run[i].seen] == history[..run[i].seen];
    }
  }

  // ---- How fast a controller may move a joint's effort ----

  /** Everything sent, activation after activation. */
  function Flat(runs: seq<seq<Sent>>): seq<Sent> {
    if runs == [] then [] else Flat(runs[..|runs| - 1]) + runs[|runs| - 1]
  }

  /** The controllers' batches among it, under one configuration. */
  function Commands(sent: seq<Sent>, config: nat): seq<Sent> {
    if sent == [] then []
    else
      var last := sent[|sent| - 1];
      Commands(sent[..|sent| - 1], config) +
      if last.authority.Controller? && last.config == config then [last] else []
  }

  /** Against the one before it: no effort moved faster than its limit, over the time from when that one
      was stamped to the clock of this check. */
  ghost predicate StepKept(cs: seq<Sent>, k: nat)
    requires 0 < k < |cs|
  {
    AllSlewOk(cs[k].batch.joints, cs[k - 1].batch.joints, cs[k].now - cs[k - 1].stamp, cs[k].limits)
  }

  ghost predicate SlewKept(cs: seq<Sent>) {
    forall k :: 0 < k < |cs| ==> StepKept(cs, k)
  }

  ghost predicate AllSlewKept(sent: seq<Sent>) {
    forall config: nat :: SlewKept(Commands(sent, config))
  }

  lemma CommandsSnoc(sent: seq<Sent>, e: Sent, config: nat)
    ensures Commands(sent + [e], config) ==
      Commands(sent, config) + if e.authority.Controller? && e.config == config then [e] else []
  {
    assert (sent + [e])[..|sent|] == sent;
  }

  /** The last command of the current configuration, which is what the next is checked against. */
  function LastCommand(sent: seq<Sent>, config: nat): Option<Sent> {
    var cs := Commands(sent, config);
    if cs == [] then None else Some(cs[|cs| - 1])
  }

  lemma SlewExtends(sent: seq<Sent>, e: Sent)
    requires AllSlewKept(sent)
    requires e.authority.Controller? && LastCommand(sent, e.config).Some? ==>
      var p := LastCommand(sent, e.config).value;
      AllSlewOk(e.batch.joints, p.batch.joints, e.now - p.stamp, e.limits)
    ensures AllSlewKept(sent + [e])
    ensures forall config: nat ::
      LastCommand(sent + [e], config) ==
      if e.authority.Controller? && e.config == config then Some(e) else LastCommand(sent, config)
  {
    hide AllSlewOk, Commands;
    forall config: nat
      ensures SlewKept(Commands(sent + [e], config))
      ensures LastCommand(sent + [e], config) ==
        if e.authority.Controller? && e.config == config then Some(e) else LastCommand(sent, config)
    {
      CommandsSnoc(sent, e, config);
      var cs := Commands(sent, config);
      assert SlewKept(cs);
      if e.authority.Controller? && e.config == config {
        forall k | 0 < k < |cs| + 1
          ensures StepKept(cs + [e], k)
        {
          if k < |cs| {
            assert StepKept(cs, k);
          }
        }
      } else {
        assert Commands(sent + [e], config) == cs;
      }
    }
  }

  lemma {:induction false} CommandsAreSent(sent: seq<Sent>, config: nat)
    ensures forall e :: e in Commands(sent, config) ==>
      e in sent && e.authority.Controller? && e.config == config
  {
    if sent == [] {
    } else {
      CommandsAreSent(sent[..|sent| - 1], config);
    }
  }

  /** What an entry of a lawful trace is, wherever in it. */
  ghost predicate AllTrue(sent: seq<Sent>, history: seq<Change>) {
    forall e :: e in sent ==> EntryTrue(e, history)
  }

  lemma {:induction false} FlatIsTrue(runs: seq<seq<Sent>>, history: seq<Change>)
    requires forall r :: 0 <= r < |runs| ==> MasksTrue(runs[r], history)
    ensures AllTrue(Flat(runs), history)
  {
    hide EntryTrue;
    if runs == [] {
    } else {
      FlatIsTrue(runs[..|runs| - 1], history);
      var last := runs[|runs| - 1];
      assert MasksTrue(last, history);
    }
  }

  /** A configuration just made has no commands yet. */
  lemma NewConfigIsEmpty(sent: seq<Sent>, history: seq<Change>)
    requires AllTrue(sent, history)
    ensures LastCommand(sent, Configs(history) + 1).None?
  {
    hide Configs, Owned, Limits;
    CommandsAreSent(sent, Configs(history) + 1);
    assert history[..|history|] == history;
    var cs := Commands(sent, Configs(history) + 1);
    if cs != [] {
      assert cs[0] in cs && EntryTrue(cs[0], history);
      SameConfigSameLimits(history, cs[0].seen, |history|);
      assert false;
    }
  }

  /** The waiting between commands: each check's clock less the time the command before was stamped. */
  function Waited(cs: seq<Sent>, m: nat, n: nat): real
    requires m <= n < |cs|
  {
    if m == n then 0.0 else Waited(cs, m, n - 1) + (cs[n].now - cs[n - 1].stamp)
  }

  ghost predicate TimeMoves(cs: seq<Sent>, m: nat, n: nat)
    requires m <= n < |cs|
  {
    forall k :: m < k <= n ==> cs[k].now > cs[k - 1].stamp
  }

  /** From one command to a later one, joint j's effort moved by at most its limit times the waiting. */
  ghost predicate MovedWithin(cs: seq<Sent>, m: nat, n: nat, j: nat)
    requires m < n < |cs|
  {
    && j < |cs[m].batch.joints| && j < |cs[n].batch.joints| && j < |cs[n].limits|
    && cs[m].batch.joints[j].effort.Real? && cs[n].batch.joints[j].effort.Real?
    && (cs[n].limits[j].torqueSlewMax.Real? ==>
      AbsReal(cs[n].batch.joints[j].effort.r - cs[m].batch.joints[j].effort.r)
        <= cs[n].limits[j].torqueSlewMax.r * Waited(cs, m, n))
  }

  ghost predicate SameLimits(cs: seq<Sent>) {
    forall a, b :: 0 <= a <= b < |cs| ==> cs[a].limits == cs[b].limits
  }

  /** Between any two commands under one configuration. */
  lemma {:induction false} EffortMovesWithin(cs: seq<Sent>, m: nat, n: nat, j: nat)
    requires SlewKept(cs) && SameLimits(cs) && m < n < |cs| && j < |cs[m].batch.joints|
    requires TimeMoves(cs, m, n)
    ensures MovedWithin(cs, m, n, j)
    decreases n
  {
    hide SlewOk;
    if n == m + 1 {
      StepMovesWithin(cs, n, j);
      assert Waited(cs, m, n) == 0.0 + (cs[n].now - cs[n - 1].stamp);
    } else {
      EffortMovesWithin(cs, m, n - 1, j);
      StepMovesWithin(cs, n, j);
      assert cs[n].limits == cs[n - 1].limits;
      if cs[n].limits[j].torqueSlewMax.Real? {
        Spread(cs[n].limits[j].torqueSlewMax.r, Waited(cs, m, n - 1), cs[n].now - cs[n - 1].stamp);
      }
    }
  }

  lemma StepMovesWithin(cs: seq<Sent>, k: nat, j: nat)
    requires SlewKept(cs) && 0 < k < |cs| && j < |cs[k - 1].batch.joints| && cs[k].now > cs[k - 1].stamp
    ensures j < |cs[k].batch.joints| && j < |cs[k].limits|
    ensures cs[k].batch.joints[j].effort.Real? && cs[k - 1].batch.joints[j].effort.Real?
    ensures cs[k].limits[j].torqueSlewMax.Real? ==>
      AbsReal(cs[k].batch.joints[j].effort.r - cs[k - 1].batch.joints[j].effort.r)
        <= cs[k].limits[j].torqueSlewMax.r * (cs[k].now - cs[k - 1].stamp)
  {
    assert StepKept(cs, k);
    var a, b := cs[k].batch.joints[j], cs[k - 1].batch.joints[j];
    var dt := cs[k].now - cs[k - 1].stamp;
    assert a.IsFinite() && b.IsFinite();
    assert SlewOk(a.effort, b.effort, dt, cs[k].limits[j].torqueSlewMax);
    if cs[k].limits[j].torqueSlewMax.Real? {
      QuotientBound(AbsReal(a.effort.r - b.effort.r), dt, cs[k].limits[j].torqueSlewMax.r);
    }
  }

  lemma CommandsShareLimits(sent: seq<Sent>, history: seq<Change>, config: nat)
    requires AllTrue(sent, history)
    ensures SameLimits(Commands(sent, config))
  {
    hide Limits, Configs, Owned, Commands;
    var cs := Commands(sent, config);
    CommandsAreSent(sent, config);
    forall a, b | 0 <= a <= b < |cs|
      ensures cs[a].limits == cs[b].limits
    {
      assert cs[a] in cs && cs[b] in cs;
      assert EntryTrue(cs[a], history) && EntryTrue(cs[b], history);
      if cs[a].seen <= cs[b].seen {
        SameConfigSameLimits(history, cs[a].seen, cs[b].seen);
      } else {
        SameConfigSameLimits(history, cs[b].seen, cs[a].seen);
      }
    }
  }

  // ---- The whole trace ----

  /** One run of batches for each activation, the current one last; every ownership change; how the
      last exchange ended; and the reads unanswered in a row. */
  datatype Trace = Trace(
    runs: seq<seq<Sent>>, history: seq<Change>, lastExchangeOk: bool, unanswered: nat)
  {
    function Current(): seq<Sent> {
      if runs == [] then [] else runs[|runs| - 1]
    }
  }

  ghost predicate AllLawful(t: Trace, jointNames: seq<string>) {
    && t.runs != [] && AllAccepted(t.history, jointNames)
    && (forall r :: 0 <= r < |t.runs| ==> RunLawful(t.runs[r], |jointNames|) && MasksTrue(t.runs[r], t.history))
    && AllSlewKept(Flat(t.runs))
  }

  /** Nothing in the trace is ever taken back. */
  ghost predicate Continues(after: Trace, before: Trace) {
    && before.history <= after.history && |before.runs| <= |after.runs|
    && forall r :: 0 <= r < |before.runs| ==> before.runs[r] <= after.runs[r]
  }

  lemma ContinuesChain(a: Trace, b: Trace, c: Trace)
    ensures Continues(a, a)
    ensures Continues(b, a) && Continues(c, b) ==> Continues(c, a)
  {
  }

  function WithSent(t: Trace, e: Sent, ok: bool): Trace {
    if t.runs == [] then t
    else t.(runs := t.runs[|t.runs| - 1 := t.Current() + [e]], lastExchangeOk := ok)
  }

  function WithChange(t: Trace, c: Change): Trace {
    t.(history := t.history + [c])
  }

  /** The entry is of this moment. */
  predicate EntryNow(e: Sent, history: seq<Change>) {
    && e.seen == |history| && e.mask == Owned(history) && e.limits == Limits(history)
    && e.config == Configs(history)
  }

  /** What the next command is checked against. */
  function LastOf(t: Trace): Option<Sent> {
    LastIn(t.runs, t.history)
  }

  function LastIn(runs: seq<seq<Sent>>, history: seq<Change>): Option<Sent> {
    LastCommand(Flat(runs), Configs(history))
  }

  lemma FlatSent(t: Trace, e: Sent, ok: bool)
    requires t.runs != []
    ensures Flat(WithSent(t, e, ok).runs) == Flat(t.runs) + [e]
  {
    var runs := WithSent(t, e, ok).runs;
    assert runs[..|runs| - 1] == t.runs[..|t.runs| - 1];
  }

  lemma FlatNewRun(runs: seq<seq<Sent>>)
    ensures Flat(runs + [[]]) == Flat(runs)
  {
    assert (runs + [[]])[..|runs|] == runs;
  }

  lemma SentLawful(
    t: Trace, jointNames: seq<string>, e: Sent, ok: bool, was: CommandAuthority)
    requires AllLawful(t, jointNames) && Lawful(e, |jointNames|)
    requires EntryNow(e, t.history)
    requires e.authority.Controller? && LastOf(t).Some? ==>
      AllSlewOk(e.batch.joints, LastOf(t).value.batch.joints, e.now - LastOf(t).value.stamp, e.limits)
    requires !e.authority.Protective? ==>
      && NoneProtective(t.Current()) && e.batch.sequence == |t.Current()|
      && was == AuthorityAfter(AwaitingClaim, Saw(t.Current(), |jointNames|))
      && e.authority == NextAuthority(was, OwnsAll(e.mask, |jointNames|))
    ensures AllLawful(WithSent(t, e, ok), jointNames)
    ensures WithSent(t, e, ok).Current() == t.Current() + [e] && Continues(WithSent(t, e, ok), t)
    ensures LastOf(WithSent(t, e, ok)) == if e.authority.Controller? then Some(e) else LastOf(t)
    ensures !e.authority.Protective? ==>
      && NoneProtective(t.Current() + [e])
      && e.authority == AuthorityAfter(AwaitingClaim, Saw(t.Current() + [e], |jointNames|))
  {
    hide RunLawful, MasksTrue, Lawful, AllAccepted, NextAuthority, OwnsAll, Owned, Limits, Configs,
      NoneProtective, Saw, AllSlewKept, LastCommand, AllSlewOk, Flat;
    FlatSent(t, e, ok);
    SlewExtends(Flat(t.runs), e);
    RunExtends(t.Current(), e, |jointNames|, was);
    MasksExtend(t.Current(), e, t.history);
  }

  lemma ChangeLawful(t: Trace, jointNames: seq<string>, c: Change)
    requires AllLawful(t, jointNames) && IsAccepted(c, jointNames)
    ensures AllLawful(WithChange(t, c), jointNames) && Continues(WithChange(t, c), t)
    ensures Owned(t.history + [c]) == OwnedThen(Owned(t.history), c)
    ensures Limits(t.history + [c]) == if c.Limited? then c.envelopes else Limits(t.history)
    ensures LastOf(WithChange(t, c)) == if c.Limited? then None else LastOf(t)
  {
    hide RunLawful, MasksTrue, IsAccepted, LastCommand, AllSlewKept, Flat;
    FlatIsTrue(t.runs, t.history);
    NewConfigIsEmpty(Flat(t.runs), t.history);
    assert (t.history + [c])[..|t.history|] == t.history;
    forall r | 0 <= r < |t.runs|
      ensures MasksTrue(t.runs[r], t.history + [c])
    {
      MasksStayTrue(t.runs[r], t.history, c);
    }
  }

  lemma NewRunLawful(t: Trace, jointNames: seq<string>)
    requires AllLawful(t, jointNames)
    ensures var n := t.(runs := t.runs + [[]], lastExchangeOk := false, unanswered := 0);
      AllLawful(n, jointNames) && n.Current() == [] && Continues(n, t) && LastOf(n) == LastOf(t)
  {
    hide Lawful, InPlace, AllSlewKept, LastCommand, Flat, EntryTrue;
    FlatNewRun(t.runs);
  }
}
