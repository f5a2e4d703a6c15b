/** No automatic re-arm: a motor that an activation armed, and that has dropped out since, for
    whatever reason but its slave starting again, is not armed by anything the host goes on sending. */
module Rearming {
  import opened Bits
  import opened Framing
  import opened Telemetry
  import opened DriveSm
  import opened Master
  import opened DeadMan
  import opened Latching
  import opened Channel

  /** A motor, by its place and its chain's id, and the counts it had when it was taken up. */
  datatype Slot = Slot(id: byte, c: nat, k: nat, reboots: nat, spurious: nat)

  predicate There(s: State, x: Slot) {
    Exists(s, x.c, x.k) && s.chains[x.c].id == x.id
  }

  function The(s: State, x: Slot): Motor
    requires There(s, x)
  {
    MotorAt(s, x.c, x.k)
  }

  predicate Later(m: Motor, x: Slot) {
    m.reboots >= x.reboots && m.spurious >= x.spurious
  }

  /** Since it was taken up its slave has not started again, and no fault was reported of it without
      a cause. */
  predicate Undisturbed(m: Motor, x: Slot) {
    m.reboots == x.reboots && m.spurious == x.spurious
  }

  /** Armed, and not on its way to DISABLED; or in FAULT. */
  predicate Up(m: Motor) {
    || m.driveState.Fault? || m.driveState.Enabling? || m.driveState.Enabled?
    || (m.driveState.Stopping? && !m.driveFault.NoFault?)
  }

  predicate OffIn(s: State, x: Slot) {
    There(s, x) && !IsArmed(The(s, x).driveState)
  }

  // ---- Commands for one slot ----

  /** Every request that the command makes of the slot is ENABLE. */
  predicate AlwaysAt(cmd: Command, id: byte, k: nat) {
    forall i :: 0 <= i < Min(cmd.nChains, MAX_CHAINS) && cmd.chains[i].chainId == id && k < MAX_MOTORS ==>
      cmd.chains[i].motors[k].driveReq.Enable?
  }

  /** And it makes one. */
  predicate Enables(cmd: Command, id: byte, k: nat) {
    AlwaysAt(cmd, id, k) && !QuietAt(cmd, id, k)
  }

  predicate AlwaysThenQuiet(a: Command, b: Command, id: byte, k: nat) {
    AlwaysAt(a, id, k) || QuietAt(b, id, k)
  }

  ghost predicate QuietOnceQuiet(q: seq<Command>, x: Slot) {
    forall i, j :: 0 <= i <= j < |q| ==> AlwaysThenQuiet(q[i], q[j], x.id, x.k)
  }

  /** While `open`, every command in the mail enables the slot; afterwards, those that do come first. */
  ghost predicate Ordered(w: World, x: Slot, open: bool) {
    if open then forall c :: c in Mail(w) ==> AlwaysAt(c, x.id, x.k)
    else QuietOnceQuiet(Mail(w), x)
  }

  /** Nothing will arm the slot again: the host is lost, or no command left asks for it. */
  ghost predicate Parked(w: World, x: Slot, open: bool) {
    w.master.hostLost || (!open && QuietMail(w, x.id, x.k))
  }

  /** An undisturbed motor is up, or parked. */
  ghost predicate Kept(w: World, x: Slot, open: bool) {
    && AllNoReset(w) && Ordered(w, x, open)
    && There(w.master, x) && Later(The(w.master, x), x)
    && (Undisturbed(The(w.master, x), x) ==> Up(The(w.master, x)) || Parked(w, x, open))
  }

  /** An undisturbed motor is off, and in FAULT or parked. */
  ghost predicate Down(w: World, x: Slot, open: bool) {
    && There(w.master, x)
    && (Undisturbed(The(w.master, x), x) ==>
      OffIn(w.master, x) && (The(w.master, x).driveState.Fault? || Parked(w, x, open)))
  }

  // ---- One motor ----

  lemma EnableKeepsUp(m: Motor, r: CmdMotor, q: u16, gate: bool)
    requires Up(m) && r.driveReq.Enable?
    ensures Up(ApplyRequest(m, Forwarded(r, m.driveState, false, gate), q))
  {
    RequestIsStep(m, Forwarded(r, m.driveState, false, gate), q);
    hide ApplyRequest;
  }

  lemma PollKeepsUp(m: Motor, cfg: Config)
    requires Up(m)
    ensures Up(PollMotor(m, cfg))
  {
    PollIsStep(m, cfg);
    hide PollMotor;
  }

  lemma EventKeepsUp(m: Motor, e: Event)
    requires Up(m) && !e.CycleWith? && Undisturbed(MotorEvent(m, e), Slot(0, 0, 0, m.reboots, m.spurious))
    ensures Up(MotorEvent(m, e))
  {
  }

  // ---- What the master's cycle does to the slot ----

  /** The slot keeps its place and its counts. */
  predicate Same(m: Motor, n: Motor) {
    m.reboots == n.reboots && m.spurious == n.spurious
  }

  lemma CycleKeepsCounts(s: State, arrivals: seq<Command>, cfg: Config, x: Slot)
    requires There(s, x)
    ensures There(Cycle(s, arrivals, cfg), x) && Same(The(Cycle(s, arrivals, cfg), x), The(s, x))
  {
    hide Cycle, PollMotor, ApplyRequest, Swap, ReadHost, Forwarded;
    HappenKeepsShape(s, CycleWith(arrivals), cfg);
    CycleHappens(s, CycleWith(arrivals), cfg);
    var was := The(s, x);
    forall m: Motor, r: CmdMotor, q: u16
      ensures Same(ApplyRequest(m, r, q), m)
    {
      RequestKeepsCounts(m, r, q);
    }
    forall m: Motor
      ensures Same(PollMotor(m, cfg), m)
    {
      PollKeepsCounts(m, cfg);
    }
    CycleCarries(m => Same(m, was), m => Same(m, was), _ => true, s, arrivals, cfg, x.c, x.k);
  }

  /** With a command that enables the slot, an up motor stays up. */
  lemma EnablingCycleKeepsUp(s: State, arrivals: seq<Command>, cfg: Config, x: Slot)
    requires There(s, x) && Up(The(s, x)) && x.k < MAX_MOTORS
    requires var s1 := Swap(ReadHost(s, arrivals), cfg);
      !s1.hostLost && (s1.active.Some? ==> AlwaysAt(s1.active.value, x.id, x.k))
    ensures There(Cycle(s, arrivals, cfg), x) && Up(The(Cycle(s, arrivals, cfg), x))
  {
    hide Cycle, PollMotor, ApplyRequest, AnyArmed, CarriesReset, Forwarded, Up;
    HappenKeepsShape(s, CycleWith(arrivals), cfg);
    CycleHappens(s, CycleWith(arrivals), cfg);
    forall m: Motor, r: CmdMotor, q: u16, gate: bool | Up(m) && r.driveReq.Enable?
      ensures Up(ApplyRequest(m, Forwarded(r, m.driveState, false, gate), q))
    {
      EnableKeepsUp(m, r, q, gate);
    }
    forall m: Motor | Up(m)
      ensures Up(PollMotor(m, cfg))
    {
      PollKeepsUp(m, cfg);
    }
    CycleCarries(m => Up(m), m => Up(m), (r: CmdMotor) => r.driveReq.Enable?, s, arrivals, cfg, x.c, x.k);
  }

  /** With the host lost, or a command acted on that is quiet at the slot, an unarmed motor stays
      unarmed. */
  lemma CycleKeepsOff(s: State, arrivals: seq<Command>, cfg: Config, x: Slot)
    requires There(s, x) && OffIn(s, x)
    requires var s1 := Swap(ReadHost(s, arrivals), cfg);
      s1.hostLost || (s1.active.Some? ==> QuietAt(s1.active.value, x.id, x.k))
    ensures There(Cycle(s, arrivals, cfg), x) && OffIn(Cycle(s, arrivals, cfg), x)
  {
    hide Cycle, Swap, ReadHost, QuietAt;
    HappenKeepsShape(s, CycleWith(arrivals), cfg);
    CycleHappens(s, CycleWith(arrivals), cfg);
    UnheardOrQuietKeepsOff(s, arrivals, cfg, x.c, x.id, x.k);
  }

  // ---- What any move does to the slot ----

  lemma MoveKeepsOrdered(w: World, m: Move, cfg: Config, x: Slot, open: bool)
    requires Ordered(w, x, open)
    ensures Ordered(Apply(w, m, cfg), x, open)
  {
    hide Apply, Mail, AlwaysAt, AlwaysThenQuiet;
    if open {
      MovesKeepEverywhere((c: Command) => AlwaysAt(c, x.id, x.k), w, m, cfg);
    } else {
      MovesKeepOrder((a: Command, b: Command, c: Command) => AlwaysThenQuiet(a, c, x.id, x.k), w, m, cfg);
    }
  }

  /** The host, once lost, stays lost while no RESET is about. */
  lemma LostWithoutReset(w: World, m: Move, cfg: Config)
    requires AllNoReset(w) && w.master.hostLost
    ensures Apply(w, m, cfg).master.hostLost
    ensures m.MasterCycle? ==>
      Swap(ReadHost(w.master, w.wire[..Min(m.count, |w.wire|)]), cfg).hostLost
  {
    hide Cycle, Mail, AnyArmed, CarriesReset, AsksNoReset;
    match m
    case MasterCycle(count) =>
      var arrivals := w.wire[..Min(count, |w.wire|)];
      CycleHappens(w.master, CycleWith(arrivals), cfg);
      CycleLost(w.master, arrivals, cfg);
      NewMailHasNoReset(w, count);
    case Between(e) =>
    case _ =>
  }

  /** What the swap would take carries no RESET. */
  lemma NewMailHasNoReset(w: World, count: nat)
    requires AllNoReset(w)
    ensures var s := ReadHost(w.master, w.wire[..Min(count, |w.wire|)]);
      s.pending.Some? ==> !CarriesReset(s.pending.value)
  {
    hide AsksNoReset, CarriesReset;
    var s := ReadHost(w.master, w.wire[..Min(count, |w.wire|)]);
    if s.pending.Some? {
      assert s.pending.value in Mail(w);
      NoResetCarriesNone(s.pending.value);
    }
  }

  lemma NoResetCarriesNone(cmd: Command)
    requires AsksNoReset(cmd)
    ensures !CarriesReset(cmd)
  {
  }

  lemma MoveKeepsParked(w: World, m: Move, cfg: Config, x: Slot, open: bool)
    requires AllNoReset(w) && Parked(w, x, open)
    ensures Parked(Apply(w, m, cfg), x, open)
  {
    hide Apply, AllNoReset, QuietMail;
    if w.master.hostLost {
      LostWithoutReset(w, m, cfg);
    } else {
      MoveKeepsQuietMail(w, m, cfg, x.id, x.k);
    }
  }

  lemma MoveKeepsThere(w: World, m: Move, cfg: Config, x: Slot)
    requires There(w.master, x)
    ensures There(Apply(w, m, cfg).master, x)
    ensures CountsGrow(The(w.master, x), The(Apply(w, m, cfg).master, x))
  {
    hide Apply;
    MoveGrows(w, m, cfg);
  }

  lemma UndisturbedBefore(w: World, m: Move, cfg: Config, x: Slot)
    requires There(w.master, x) && Later(The(w.master, x), x)
    ensures There(Apply(w, m, cfg).master, x) && Later(The(Apply(w, m, cfg).master, x), x)
    ensures Undisturbed(The(Apply(w, m, cfg).master, x), x) ==> Undisturbed(The(w.master, x), x)
  {
    hide Apply;
    MoveKeepsThere(w, m, cfg, x);
  }

  /** A cycle in which the host is not lost leaves an up motor up, or the slot parked. */
  lemma CycleKeepsUp(w: World, count: nat, cfg: Config, x: Slot, open: bool)
    requires Ordered(w, x, open) && There(w.master, x) && Up(The(w.master, x)) && x.k < MAX_MOTORS
    ensures var v := Apply(w, MasterCycle(count), cfg);
      There(v.master, x) && (Up(The(v.master, x)) || Parked(v, x, open))
  {
    hide Cycle, Mail, Up, Swap, ReadHost, AlwaysAt, QuietAt;
    var arrivals := w.wire[..Min(count, |w.wire|)];
    var p := CycleTakesMail(w, count, cfg);
    var v := Apply(w, MasterCycle(count), cfg);
    CycleHappens(w.master, CycleWith(arrivals), cfg);
    CycleLost(w.master, arrivals, cfg);
    CycleKeepsCounts(w.master, arrivals, cfg, x);
    var s1 := Swap(ReadHost(w.master, arrivals), cfg);
    if !s1.hostLost {
      if s1.active.None? || AlwaysAt(s1.active.value, x.id, x.k) {
        EnablingCycleKeepsUp(w.master, arrivals, cfg, x);
      } else {
        RestIsQuiet(w, p, x);
        LiveIsMail(v);
      }
    }
  }

  lemma RestIsQuiet(w: World, p: nat, x: Slot)
    requires QuietOnceQuiet(Mail(w), x) && p < |Mail(w)| && !AlwaysAt(Mail(w)[p], x.id, x.k)
    ensures forall c :: c in Mail(w)[p..] ==> QuietAt(c, x.id, x.k)
  {
    hide Mail, AlwaysAt, QuietAt;
    var q := Mail(w);
    forall c | c in q[p..]
      ensures QuietAt(c, x.id, x.k)
    {
      var j :| 0 <= j < |q| - p && q[p..][j] == c;
      assert AlwaysThenQuiet(q[p], q[p + j], x.id, x.k);
    }
  }

  lemma BetweenKeepsUp(s: State, e: Event, cfg: Config, x: Slot)
    requires !e.CycleWith? && There(s, x) && Up(The(s, x))
    ensures There(Happen(s, e, cfg), x)
    ensures Same(The(Happen(s, e, cfg), x), The(s, x)) ==> Up(The(Happen(s, e, cfg), x))
  {
    hide Up, MotorEvent, Happen;
    HappenKeepsShape(s, e, cfg);
    EventChangesOne(s, e, cfg, x.c, x.k);
    var m := The(s, x);
    if Same(MotorEvent(m, e), m) {
      EventKeepsUp(m, e);
    }
  }

  lemma MoveKeepsKept(w: World, m: Move, cfg: Config, x: Slot, open: bool)
    requires Kept(w, x, open) && x.k < MAX_MOTORS
    ensures Kept(Apply(w, m, cfg), x, open)
  {
    hide Happen, Up, Parked, AllNoReset, Ordered, Mail, AsksNoReset;
    var v := Apply(w, m, cfg);
    KeepsNoReset(w, m, cfg);
    MoveKeepsOrdered(w, m, cfg, x, open);
    UndisturbedBefore(w, m, cfg, x);
    if Undisturbed(The(v.master, x), x) {
      if Parked(w, x, open) {
        MoveKeepsParked(w, m, cfg, x, open);
      } else {
        match m
        case MasterCycle(count) => CycleKeepsUp(w, count, cfg, x, open);
        case Between(e) =>
          if !e.CycleWith? {
            BetweenKeepsUp(w.master, e, cfg, x);
          }
        case _ =>
      }
    }
  }

  lemma KeepsNoReset(w: World, m: Move, cfg: Config)
    requires AllNoReset(w)
    ensures AllNoReset(Apply(w, m, cfg))
  {
    hide Apply, Everywhere;
    MovesKeepEverywhere(AsksNoReset, w, m, cfg);
  }

  lemma MoveKeepsFault(w: World, m: Move, cfg: Config, x: Slot)
    requires AllNoReset(w) && There(w.master, x) && The(w.master, x).driveState.Fault?
    ensures There(Apply(w, m, cfg).master, x)
    ensures The(Apply(w, m, cfg).master, x).reboots == The(w.master, x).reboots ==>
      The(Apply(w, m, cfg).master, x).driveState.Fault?
  {
    hide Apply, AllNoReset, Grows;
    MoveKeepsThere(w, m, cfg, x);
    MoveKeepsFaults(w, m, cfg);
  }

  /** A motor off with the host lost, or with nothing left to arm it, stays off. */
  lemma MoveKeepsOff(w: World, m: Move, cfg: Config, x: Slot, open: bool)
    requires AllNoReset(w) && Parked(w, x, open) && There(w.master, x) && OffIn(w.master, x)
    requires x.k < MAX_MOTORS
    ensures There(Apply(w, m, cfg).master, x) && OffIn(Apply(w, m, cfg).master, x)
  {
    hide Happen, Live, AllNoReset, Swap, ReadHost, QuietAt;
    MoveKeepsThere(w, m, cfg, x);
    match m
    case MasterCycle(count) =>
      CycleHappens(w.master, CycleWith(w.wire[..Min(count, |w.wire|)]), cfg);
      var r := CycleTakesLive(w, count, cfg);
      if w.master.hostLost {
        LostWithoutReset(w, m, cfg);
      }
      CycleKeepsOff(w.master, w.wire[..Min(count, |w.wire|)], cfg, x);
    case Between(e) =>
      if !e.CycleWith? {
        BetweenCyclesArmsNothing(w.master, e, cfg, x.c, x.k);
      }
    case _ =>
  }

  lemma MoveKeepsDown(w: World, m: Move, cfg: Config, x: Slot, open: bool)
    requires Kept(w, x, open) && Down(w, x, open) && x.k < MAX_MOTORS
    ensures Down(Apply(w, m, cfg), x, open)
  {
    hide Apply, Up, Parked, AllNoReset, Ordered;
    var v := Apply(w, m, cfg);
    UndisturbedBefore(w, m, cfg, x);
    if Undisturbed(The(v.master, x), x) {
      if Parked(w, x, open) {
        MoveKeepsParked(w, m, cfg, x, open);
        MoveKeepsOff(w, m, cfg, x, open);
      } else {
        MoveKeepsFault(w, m, cfg, x);
      }
    }
  }

  // ---- From the first report of the motor armed ----

  /** Every report from i on has the motor off. */
  ghost predicate OffFrom(w: World, i: nat, x: Slot) {
    forall l :: i <= l < |w.tele| ==> OffIn(w.tele[l], x)
  }

  /** Once reported off, the motor has been reported off ever since, is off now, and will not be
      armed; and once reported off and not in FAULT, the slot is parked. */
  ghost predicate OffForGood(w: World, from: nat, x: Slot, open: bool) {
    forall i :: from <= i < |w.tele| && OffIn(w.tele[i], x) ==>
      && OffFrom(w, i, x) && Down(w, x, open)
      && (!The(w.tele[i], x).driveState.Fault? ==> Parked(w, x, open))
  }

  /** The motor was armed by this activation, and was reported armed at `from`. */
  ghost predicate Launched(w: World, from: nat, x: Slot, open: bool) {
    && Kept(w, x, open) && x.k < MAX_MOTORS
    && (forall i :: from <= i < |w.tele| ==> There(w.tele[i], x))
    && (Undisturbed(The(w.master, x), x) ==> OffForGood(w, from, x, open))
  }

  lemma KeptIsUpOrParked(w: World, x: Slot, open: bool)
    requires Kept(w, x, open) && Undisturbed(The(w.master, x), x) && OffIn(w.master, x)
    ensures Down(w, x, open)
    ensures !The(w.master, x).driveState.Fault? ==> Parked(w, x, open)
  {
    hide Parked, AllNoReset, Ordered;
  }

  lemma MoveKeepsOffForGood(w: World, m: Move, cfg: Config, from: nat, x: Slot, open: bool)
    requires Launched(w, from, x, open) && from <= |w.tele|
    requires var v := Apply(w, m, cfg); Kept(v, x, open) && Undisturbed(The(v.master, x), x)
    ensures OffForGood(Apply(w, m, cfg), from, x, open)
  {
    hide Apply, Kept, Down, Parked, AllNoReset, There;
    var v := Apply(w, m, cfg);
    MoveReports(w, m, cfg);
    StillUndisturbed(w, m, cfg, x, open);
    forall i | from <= i < |v.tele| && OffIn(v.tele[i], x)
      ensures OffFrom(v, i, x) && Down(v, x, open)
      ensures !The(v.tele[i], x).driveState.Fault? ==> Parked(v, x, open)
    {
      if i < |w.tele| {
        assert v.tele[i] == w.tele[i] && OffIn(w.tele[i], x);
        MoveKeepsDown(w, m, cfg, x, open);
        DownIsOff(v, x, open);
        if !The(v.tele[i], x).driveState.Fault? {
          KeptHasNoReset(w, x, open);
          MoveKeepsParked(w, m, cfg, x, open);
        }
      } else {
        KeptIsUpOrParked(v, x, open);
      }
    }
  }

  lemma StillUndisturbed(w: World, m: Move, cfg: Config, x: Slot, open: bool)
    requires Kept(w, x, open)
    ensures var v := Apply(w, m, cfg);
      There(v.master, x) && (Undisturbed(The(v.master, x), x) ==> Undisturbed(The(w.master, x), x))
  {
    hide Apply, Parked, AllNoReset, Ordered;
    UndisturbedBefore(w, m, cfg, x);
  }

  lemma DownIsOff(w: World, x: Slot, open: bool)
    requires Down(w, x, open) && Undisturbed(The(w.master, x), x)
    ensures OffIn(w.master, x)
  {
  }

  lemma KeptHasNoReset(w: World, x: Slot, open: bool)
    requires Kept(w, x, open)
    ensures AllNoReset(w) && There(w.master, x)
  {
  }

  lemma MoveKeepsLaunched(w: World, m: Move, cfg: Config, from: nat, x: Slot, open: bool)
    requires Launched(w, from, x, open) && from <= |w.tele|
    ensures Launched(Apply(w, m, cfg), from, x, open) && from <= |Apply(w, m, cfg).tele|
  {
    hide Apply, Kept, OffForGood, There;
    var v := Apply(w, m, cfg);
    MoveKeepsKept(w, m, cfg, x, open);
    MoveReports(w, m, cfg);
    KeptHasNoReset(v, x, open);
    if Undisturbed(The(v.master, x), x) {
      MoveKeepsOffForGood(w, m, cfg, from, x, open);
    }
  }

  lemma LaunchedAfter(w: World, moves: seq<Move>, cfg: Config, from: nat, x: Slot, open: bool)
    requires Launched(w, from, x, open) && from <= |w.tele|
    ensures Launched(After(w, moves, cfg), from, x, open) && from <= |After(w, moves, cfg).tele|
  {
    hide Launched, Apply, After;
    forall v: World, m: Move | Launched(v, from, x, open) && from <= |v.tele|
      ensures Launched(Apply(v, m, cfg), from, x, open) && from <= |Apply(v, m, cfg).tele|
    {
      MoveKeepsLaunched(v, m, cfg, from, x, open);
    }
    AfterKeeps(v => Launched(v, from, x, open) && from <= |v.tele|, w, moves, cfg);
  }

  /** What may be sent: while open, ENABLE; afterwards, nothing that arms. */
  predicate Suits(cmd: Command, x: Slot, open: bool) {
    AsksNoReset(cmd) && if open then AlwaysAt(cmd, x.id, x.k) else QuietAt(cmd, x.id, x.k)
  }

  lemma OrderedSent(w: World, cmd: Command, x: Slot, open: bool)
    requires Ordered(w, x, open) && Suits(cmd, x, open)
    ensures Ordered(Sent(w, cmd), x, open)
  {
    hide AlwaysAt, QuietAt, Box, AsksNoReset;
    var q := Mail(w);
    assert Mail(Sent(w, cmd)) == q + [cmd];
    if !open {
      forall i, j | 0 <= i <= j < |q| + 1
        ensures AlwaysThenQuiet((q + [cmd])[i], (q + [cmd])[j], x.id, x.k)
      {
        if j < |q| {
          assert AlwaysThenQuiet(q[i], q[j], x.id, x.k);
        }
      }
    }
  }

  lemma ParkedSent(w: World, cmd: Command, x: Slot, open: bool)
    requires Parked(w, x, open) && Suits(cmd, x, open)
    ensures Parked(Sent(w, cmd), x, open)
  {
    hide QuietMail, QuietAt, AlwaysAt, AsksNoReset;
    if !open && QuietMail(w, x.id, x.k) {
      QuietMailSent(w, cmd, x.id, x.k);
    }
  }

  lemma KeptSent(w: World, cmd: Command, x: Slot, open: bool)
    requires Kept(w, x, open) && Suits(cmd, x, open)
    ensures Kept(Sent(w, cmd), x, open)
  {
    hide Ordered, Parked, Suits, AllNoReset;
    SuitsHasNoReset(cmd, x, open);
    NoResetSent(w, cmd);
    OrderedSent(w, cmd, x, open);
    if Parked(w, x, open) {
      ParkedSent(w, cmd, x, open);
    }
  }

  lemma LaunchedSent(w: World, cmd: Command, from: nat, x: Slot, open: bool)
    requires Launched(w, from, x, open) && Suits(cmd, x, open)
    ensures Launched(Sent(w, cmd), from, x, open)
  {
    hide Ordered, Parked, Suits, AllNoReset;
    KeptSent(w, cmd, x, open);
    if Parked(w, x, open) {
      ParkedSent(w, cmd, x, open);
    }
  }

  lemma SuitsHasNoReset(cmd: Command, x: Slot, open: bool)
    requires Suits(cmd, x, open)
    ensures AsksNoReset(cmd)
  {
  }

  /** A slot may be closed at any time. */
  lemma KeptCloses(w: World, x: Slot)
    requires Kept(w, x, true)
    ensures Kept(w, x, false)
  {
    hide AllNoReset, AlwaysAt, QuietAt, QuietMail, Mail, There;
    var q := Mail(w);
    forall i, j | 0 <= i <= j < |q|
      ensures AlwaysThenQuiet(q[i], q[j], x.id, x.k)
    {
      assert q[i] in q;
    }
  }

  lemma LaunchedCloses(w: World, from: nat, x: Slot)
    requires Launched(w, from, x, true)
    ensures Launched(w, from, x, false)
  {
    hide Kept, QuietMail, There;
    KeptCloses(w, x);
  }

  /** Once reported off, the motor was off in every later report, and is off now; unless it has been
      disturbed since it was taken up. */
  ghost predicate NeverRearmed(w: World, from: nat, x: Slot) {
    && There(w.master, x)
    && (Undisturbed(The(w.master, x), x) ==>
          forall i, l :: from <= i <= l < |w.tele| && OffIn(w.tele[i], x) ==>
            OffIn(w.tele[l], x) && OffIn(w.master, x))
  }

  /** No automatic re-arm. */
  lemma LaunchedNeverRearms(w: World, from: nat, x: Slot, open: bool)
    requires Launched(w, from, x, open)
    ensures NeverRearmed(w, from, x)
  {
    hide Kept, Parked, OffIn, There;
    KeptHasNoReset(w, x, open);
    if Undisturbed(The(w.master, x), x) {
      forall i, l | from <= i <= l < |w.tele| && OffIn(w.tele[i], x)
        ensures OffIn(w.tele[l], x) && OffIn(w.master, x)
      {
        assert OffFrom(w, i, x);
        DownIsOff(w, x, open);
      }
    }
  }

  // ---- While the activation arms ----

  predicate Follows(a: Command, b: Command, c: Command, x: Slot, open: bool) {
    !QuietAt(a, x.id, x.k) ==>
      && AsksNoReset(b)
      && if open then AlwaysAt(b, x.id, x.k) else AlwaysThenQuiet(b, c, x.id, x.k)
  }

  ghost predicate AllFollow(q: seq<Command>, x: Slot, open: bool) {
    forall i, j, l :: 0 <= i <= j <= l < |q| ==> Follows(q[i], q[j], q[l], x, open)
  }

  /** Once anything asks for the slot to be armed, nothing behind it carries RESET; while `open` all of
      it asks for the same, and afterwards what does comes first. And wherever the motor is armed, or
      was reported armed since `at`, it was launched. */
  ghost predicate Readying(w: World, at: nat, x: Slot, open: bool) {
    && AllFollow(Live(w), x, open) && x.k < MAX_MOTORS
    && There(w.master, x) && Later(The(w.master, x), x)
    && (IsArmed(The(w.master, x).driveState) ==> Kept(w, x, open))
    && forall i :: at <= i < |w.tele| ==>
      && There(w.tele[i], x)
      && (IsArmed(The(w.tele[i], x).driveState) ==> Launched(w, i, x, open))
  }

  lemma MoveKeepsFollowing(w: World, m: Move, cfg: Config, x: Slot, open: bool)
    requires AllFollow(Live(w), x, open)
    ensures AllFollow(Live(Apply(w, m, cfg)), x, open)
  {
    hide Apply, Live, Follows;
    MovesKeepLive((a: Command, b: Command, c: Command) => Follows(a, b, c, x, open), w, m, cfg);
  }

  /** A motor that one cycle arms is ENABLING or ENABLED. */
  lemma NewlyArmedIsUp(s: State, arrivals: seq<Command>, cfg: Config, x: Slot)
    requires OffIn(s, x) && x.k < MAX_MOTORS
    requires var a := Swap(ReadHost(s, arrivals), cfg).active;
      a.Some? ==> AlwaysAt(a.value, x.id, x.k)
    ensures There(Cycle(s, arrivals, cfg), x)
    ensures OffIn(Cycle(s, arrivals, cfg), x) || Up(The(Cycle(s, arrivals, cfg), x))
  {
    hide Cycle, PollMotor, ApplyRequest, AnyArmed, CarriesReset, Forwarded, Up;
    HappenKeepsShape(s, CycleWith(arrivals), cfg);
    CycleHappens(s, CycleWith(arrivals), cfg);
    if Swap(ReadHost(s, arrivals), cfg).hostLost {
      CycleKeepsOff(s, arrivals, cfg, x);
    } else {
      var P := (m: Motor) => !IsArmed(m.driveState) || Up(m);
      forall m: Motor, r: CmdMotor, q: u16, gate: bool | P(m) && r.driveReq.Enable?
        ensures P(ApplyRequest(m, Forwarded(r, m.driveState, false, gate), q))
      {
        EnableArmsUp(m, r, q, gate);
      }
      forall m: Motor | P(m)
        ensures P(PollMotor(m, cfg))
      {
        PollKeepsUpOrOff(m, cfg);
      }
      CycleCarries(P, P, (r: CmdMotor) => r.driveReq.Enable?, s, arrivals, cfg, x.c, x.k);
    }
  }

  lemma EnableArmsUp(m: Motor, r: CmdMotor, q: u16, gate: bool)
    requires (!IsArmed(m.driveState) || Up(m)) && r.driveReq.Enable?
    ensures var n := ApplyRequest(m, Forwarded(r, m.driveState, false, gate), q);
      !IsArmed(n.driveState) || Up(n)
  {
    RequestIsStep(m, Forwarded(r, m.driveState, false, gate), q);
    hide ApplyRequest;
  }

  lemma PollKeepsUpOrOff(m: Motor, cfg: Config)
    requires !IsArmed(m.driveState) || Up(m)
    ensures !IsArmed(PollMotor(m, cfg).driveState) || Up(PollMotor(m, cfg))
  {
    PollIsStep(m, cfg);
    hide PollMotor;
  }

  /** A cycle that newly arms the motor launches it. */
  lemma NewlyArmedIsKept(w: World, count: nat, cfg: Config, x: Slot, open: bool)
    requires AllFollow(Live(w), x, open) && OffIn(w.master, x) && Later(The(w.master, x), x)
    requires x.k < MAX_MOTORS
    requires var v := Apply(w, MasterCycle(count), cfg);
      There(v.master, x) && IsArmed(The(v.master, x).driveState)
    ensures Kept(Apply(w, MasterCycle(count), cfg), x, open)
  {
    hide Cycle, Live, Swap, ReadHost, QuietAt, AlwaysAt, Up, AsksNoReset, Parked;
    var arrivals := w.wire[..Min(count, |w.wire|)];
    var p := CycleTakesLive(w, count, cfg);
    var v := Apply(w, MasterCycle(count), cfg);
    CycleHappens(w.master, CycleWith(arrivals), cfg);
    MoveKeepsThere(w, MasterCycle(count), cfg, x);
    var s1 := Swap(ReadHost(w.master, arrivals), cfg);
    if s1.hostLost || s1.active.None? || QuietAt(s1.active.value, x.id, x.k) {
      CycleKeepsOff(w.master, arrivals, cfg, x);
      assert false;
    }
    HeardIsMail(v);
    RestFollows(Live(w), p, x, open);
    NewlyArmedIsUp(w.master, arrivals, cfg, x);
  }

  lemma HeardIsMail(w: World)
    requires !w.master.hostLost
    ensures Live(w) == Mail(w)
  {
  }

  lemma RestFollows(q: seq<Command>, p: nat, x: Slot, open: bool)
    requires AllFollow(q, x, open) && p < |q| && !QuietAt(q[p], x.id, x.k)
    ensures forall c :: c in q[p..] ==> AsksNoReset(c)
    ensures if open then forall c :: c in q[p..] ==> AlwaysAt(c, x.id, x.k)
            else QuietOnceQuiet(q[p..], x)
    ensures AlwaysAt(q[p], x.id, x.k)
  {
    hide AlwaysAt, QuietAt, AsksNoReset;
    forall j | 0 <= j < |q| - p
      ensures AsksNoReset(q[p..][j]) && (open ==> AlwaysAt(q[p..][j], x.id, x.k))
      ensures forall l :: j <= l < |q| - p && !open ==> AlwaysThenQuiet(q[p..][j], q[p..][l], x.id, x.k)
    {
      assert Follows(q[p], q[p + j], q[p + j], x, open);
      forall l | j <= l < |q| - p && !open
        ensures AlwaysThenQuiet(q[p..][j], q[p..][l], x.id, x.k)
      {
        assert Follows(q[p], q[p + j], q[p + l], x, open);
      }
    }
    assert q[p..][0] == q[p];
  }

  lemma MoveKeepsArmedKept(w: World, m: Move, cfg: Config, at: nat, x: Slot, open: bool)
    requires Readying(w, at, x, open)
    ensures var v := Apply(w, m, cfg);
      There(v.master, x) && (IsArmed(The(v.master, x).driveState) ==> Kept(v, x, open))
  {
    hide Happen, Kept, Launched, AllFollow, Live;
    MoveKeepsThere(w, m, cfg, x);
    if IsArmed(The(w.master, x).driveState) {
      MoveKeepsKept(w, m, cfg, x, open);
    } else {
      match m
      case MasterCycle(count) =>
        if IsArmed(The(Apply(w, m, cfg).master, x).driveState) {
          NewlyArmedIsKept(w, count, cfg, x, open);
        }
      case Between(e) =>
        if !e.CycleWith? {
          BetweenCyclesArmsNothing(w.master, e, cfg, x.c, x.k);
        }
      case _ =>
    }
  }

  /** A first report of the motor armed has no history to answer for. */
  lemma JustReported(w: World, x: Slot, open: bool)
    requires Kept(w, x, open) && |w.tele| > 0 && w.tele[|w.tele| - 1] == w.master
    requires IsArmed(The(w.master, x).driveState) && x.k < MAX_MOTORS
    ensures Launched(w, |w.tele| - 1, x, open)
  {
    hide Parked, Ordered, AllNoReset;
  }

  /** A report, old or new, of a motor that the activation is readying. */
  predicate ReportedAt(w: World, i: nat, x: Slot)
    requires i < |w.tele|
  {
    There(w.tele[i], x) && IsArmed(The(w.tele[i], x).driveState)
  }

  lemma ReportsStayLaunched(w: World, m: Move, cfg: Config, at: nat, x: Slot, open: bool, i: nat)
    requires Readying(w, at, x, open) && at <= i < |Apply(w, m, cfg).tele|
    ensures There(Apply(w, m, cfg).tele[i], x)
    ensures ReportedAt(Apply(w, m, cfg), i, x) ==> Launched(Apply(w, m, cfg), i, x, open)
  {
    hide Apply, Kept, Launched, AllFollow, Live, There;
    var v := Apply(w, m, cfg);
    MoveReports(w, m, cfg);
    if i < |w.tele| {
      assert v.tele[i] == w.tele[i];
      if ReportedAt(v, i, x) {
        MoveKeepsLaunched(w, m, cfg, i, x, open);
      }
    } else {
      MoveKeepsArmedKept(w, m, cfg, at, x, open);
      if ReportedAt(v, i, x) {
        JustReported(v, x, open);
      }
    }
  }

  lemma MoveKeepsReadying(w: World, m: Move, cfg: Config, at: nat, x: Slot, open: bool)
    requires Readying(w, at, x, open)
    ensures Readying(Apply(w, m, cfg), at, x, open)
  {
    hide Apply, Kept, Launched, AllFollow, There, Live;
    var v := Apply(w, m, cfg);
    MoveKeepsFollowing(w, m, cfg, x, open);
    UndisturbedBefore(w, m, cfg, x);
    MoveKeepsArmedKept(w, m, cfg, at, x, open);
    forall i | at <= i < |v.tele|
      ensures There(v.tele[i], x)
      ensures IsArmed(The(v.tele[i], x).driveState) ==> Launched(v, i, x, open)
    {
      ReportsStayLaunched(w, m, cfg, at, x, open, i);
    }
  }

  lemma ReadyingAfter(w: World, moves: seq<Move>, cfg: Config, at: nat, x: Slot, open: bool)
    requires Readying(w, at, x, open)
    ensures Readying(After(w, moves, cfg), at, x, open)
  {
    hide Readying, Apply, After;
    forall v: World, m: Move | Readying(v, at, x, open)
      ensures Readying(Apply(v, m, cfg), at, x, open)
    {
      MoveKeepsReadying(v, m, cfg, at, x, open);
    }
    AfterKeeps(v => Readying(v, at, x, open), w, moves, cfg);
  }

  lemma FollowingSent(w: World, cmd: Command, x: Slot, open: bool)
    requires AllFollow(Live(w), x, open) && Suits(cmd, x, open)
    ensures AllFollow(Live(Sent(w, cmd)), x, open)
  {
    hide AlwaysAt, QuietAt, Live, AsksNoReset;
    LiveSent(w, cmd);
    var q := Live(w);
    var longer := q + [cmd];
    forall i, j, l | 0 <= i <= j <= l < |longer|
      ensures Follows(longer[i], longer[j], longer[l], x, open)
    {
      if l < |q| {
        assert Follows(q[i], q[j], q[l], x, open);
      } else if j < |q| {
        assert Follows(q[i], q[j], q[j], x, open);
      }
    }
  }

  lemma ReadyingSent(w: World, cmd: Command, at: nat, x: Slot, open: bool)
    requires Readying(w, at, x, open) && Suits(cmd, x, open)
    ensures Readying(Sent(w, cmd), at, x, open)
  {
    hide Kept, Launched, AllFollow, Suits, Live;
    FollowingSent(w, cmd, x, open);
    if IsArmed(The(w.master, x).driveState) {
      KeptSent(w, cmd, x, open);
    }
    forall i | at <= i < |w.tele| && IsArmed(The(w.tele[i], x).driveState)
      ensures Launched(Sent(w, cmd), i, x, open)
    {
      LaunchedSent(w, cmd, i, x, open);
    }
  }

  lemma ReadyingCloses(w: World, at: nat, x: Slot)
    requires Readying(w, at, x, true)
    ensures Readying(w, at, x, false)
  {
    hide Kept, Launched, Live, AlwaysAt, QuietAt, AsksNoReset;
    var q := Live(w);
    forall i, j, l | 0 <= i <= j <= l < |q|
      ensures Follows(q[i], q[j], q[l], x, false)
    {
      assert Follows(q[i], q[j], q[l], x, true);
    }
    if IsArmed(The(w.master, x).driveState) {
      KeptCloses(w, x);
    }
    forall i | at <= i < |w.tele| && IsArmed(The(w.tele[i], x).driveState)
      ensures Launched(w, i, x, false)
    {
      LaunchedCloses(w, i, x);
    }
  }

  // ---- Into an activation, and out of a session ----

  /** The slot of a motor as a report found it. */
  predicate TakenFrom(s: State, x: Slot) {
    There(s, x) && Undisturbed(The(s, x), x)
  }

  /** A settled motor, from any report on that showed it unarmed. */
  lemma SettledIsReadying(w: World, from: nat, at: nat, x: Slot)
    requires Sound(w) && Settled(w, from, x.id, x.k) && from <= at < |w.tele| && x.k < MAX_MOTORS
    requires TakenFrom(w.tele[at], x) && !ArmedIn(w.tele[at], x.id, x.k)
    ensures Readying(w, at, x, true)
  {
    hide Kept, Launched, Live, QuietAt, ArmedIn, Carriable;
    assert !ArmedIn(w.master, x.id, x.k);
    GrowsThere(w.tele[at], w.master, x);
    UnarmedIsOff(w.master, x);
    forall i | at <= i < |w.tele|
      ensures There(w.tele[i], x) && !IsArmed(The(w.tele[i], x).driveState)
    {
      GrowsThere(w.tele[at], w.tele[i], x);
      UnarmedIsOff(w.tele[i], x);
    }
  }

  lemma GrowsThere(a: State, b: State, x: Slot)
    requires There(a, x) && Grows(a.chains, b.chains)
    ensures There(b, x) && CountsGrow(The(a, x), The(b, x))
  {
  }

  lemma UnarmedIsOff(s: State, x: Slot)
    requires There(s, x) && !ArmedIn(s, x.id, x.k)
    ensures OffIn(s, x)
  {
    assert !ArmedOn(s, x.c, x.id, x.k);
  }

  /** With ids its own, a chain's motor is the only one of its place. */
  lemma OffIsUnarmed(s: State, x: Slot)
    requires DistinctIds(s.chains) && There(s, x)
    ensures OffIn(s, x) <==> !ArmedIn(s, x.id, x.k)
  {
    assert ArmedOn(s, x.c, x.id, x.k) <==> IsArmed(The(s, x).driveState);
    forall c: nat | ArmedOn(s, c, x.id, x.k)
      ensures c == x.c
    {
    }
  }

  /** Since the report that showed it armed, an undisturbed motor has at most once become unarmed. */
  lemma LaunchedStaysUnarmed(w: World, from: nat, x: Slot, open: bool)
    requires Sound(w) && Launched(w, from, x, open) && Undisturbed(The(w.master, x), x)
    ensures StaysUnarmed(w, from, x.id, x.k)
  {
    hide Kept, Down, Parked, ArmedIn, Grows;
    KeptHasNoReset(w, x, open);
    forall i | from <= i < |w.tele| && !ArmedIn(w.tele[i], x.id, x.k)
      ensures !ArmedIn(w.master, x.id, x.k)
      ensures forall j :: i <= j < |w.tele| ==> !ArmedIn(w.tele[j], x.id, x.k)
    {
      OffIsUnarmedAt(w, i, x);
      assert OffFrom(w, i, x);
      DownIsOff(w, x, open);
      OffIsUnarmed(w.master, x);
      forall j | i <= j < |w.tele|
        ensures !ArmedIn(w.tele[j], x.id, x.k)
      {
        OffIsUnarmedAt(w, j, x);
      }
    }
  }

  lemma OffIsUnarmedAt(w: World, i: nat, x: Slot)
    requires Sound(w) && i < |w.tele| && There(w.tele[i], x)
    ensures OffIn(w.tele[i], x) <==> !ArmedIn(w.tele[i], x.id, x.k)
  {
    hide ArmedIn, OffIn;
    CarriableAlike(w.master.chains, w.tele[i].chains);
    OffIsUnarmed(w.tele[i], x);
  }

  /** A closed slot whose motor a report showed off, not in FAULT: nothing that can still be acted on
      would arm it. */
  lemma OffAndHeardIsQuiet(w: World, from: nat, x: Slot, i: nat)
    requires Launched(w, from, x, false) && Undisturbed(The(w.master, x), x)
    requires from <= i < |w.tele| && OffIn(w.tele[i], x) && !The(w.tele[i], x).driveState.Fault?
    ensures QuietMail(w, x.id, x.k)
  {
    hide Ordered, OffFrom, Down, QuietMail, AllNoReset;
    if w.master.hostLost {
      NothingIsHeard(w, x.id, x.k);
    }
  }

  /** With the host lost and no RESET about, no command can be acted on. */
  lemma NothingIsHeard(w: World, id: byte, k: nat)
    requires w.master.hostLost && AllNoReset(w)
    ensures QuietMail(w, id, k)
  {
    hide Mail, CarriesReset, AsksNoReset, Heard;
    var f := HeardFrom(Mail(w));
    if f < |Mail(w)| {
      NoResetCarriesNone(Mail(w)[f]);
    }
  }

  /** Any command that can still be acted on, and asks nothing of the one slot, asks nothing of the
      other. */
  ghost predicate Together(w: World, id0: byte, k0: nat, id: byte, k: nat) {
    forall c :: c in Live(w) && QuietAt(c, id0, k0) ==> QuietAt(c, id, k)
  }

  lemma TogetherAfter(w: World, moves: seq<Move>, cfg: Config, id0: byte, k0: nat, id: byte, k: nat)
    requires Together(w, id0, k0, id, k)
    ensures Together(After(w, moves, cfg), id0, k0, id, k)
  {
    hide Apply, After, Live, QuietAt;
    forall v: World, m: Move | Together(v, id0, k0, id, k)
      ensures Together(Apply(v, m, cfg), id0, k0, id, k)
    {
      MovesKeepInLive((c: Command) => QuietAt(c, id0, k0) ==> QuietAt(c, id, k), v, m, cfg);
    }
    AfterKeeps(v => Together(v, id0, k0, id, k), w, moves, cfg);
  }

  lemma TogetherSent(w: World, cmd: Command, id0: byte, k0: nat, id: byte, k: nat)
    requires Together(w, id0, k0, id, k) && (QuietAt(cmd, id0, k0) ==> QuietAt(cmd, id, k))
    ensures Together(Sent(w, cmd), id0, k0, id, k)
  {
    hide QuietAt, Live;
    LiveSent(w, cmd);
  }
}
