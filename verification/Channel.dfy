/** The robot as the host meets it: a master at the far end of a FIFO command channel, and the
    telemetry it has emitted, some of it delivered. What every command in flight may ask for is
    kept, move by move, whatever the robot does. */
module Channel {
  import opened Bits
  import opened Framing
  import opened Telemetry
  import opened DriveSm
  import opened Master
  import opened DeadMan
  import opened Latching

  /** `wire` is the command channel, oldest first. `tele` holds the master's state after each
      cycle it has reported, oldest first; the host has been given the first `delivered`. */
  datatype World = World(
    master: State, wire: seq<Command>, tele: seq<State>, delivered: nat, failed: bool, resetSeen: bool)

  datatype Move =
    | MasterCycle(count: nat)
    | Between(event: Event)
    | LoseCommand(i: nat)
    | DeliverUpTo(n: nat)
    | LinkFails
    | ResetNoticed

  function Apply(w: World, m: Move, cfg: Config): World {
    match m
    case MasterCycle(count) =>
      var n := Min(count, |w.wire|);
      var s := Happen(w.master, CycleWith(w.wire[..n]), cfg);
      w.(master := s, wire := w.wire[n..], tele := w.tele + [s])
    case Between(e) =>
      if e.CycleWith? then w else w.(master := Happen(w.master, e, cfg))
    case LoseCommand(i) =>
      if i < |w.wire| then w.(wire := w.wire[..i] + w.wire[i + 1..]) else w
    case DeliverUpTo(n) => if w.delivered <= n <= |w.tele| then w.(delivered := n) else w
    case LinkFails => w.(failed := true)
    case ResetNoticed => w.(resetSeen := true)
  }

  function After(w: World, moves: seq<Move>, cfg: Config): World
    decreases |moves|
  {
    if moves == [] then w else After(Apply(w, moves[0], cfg), moves[1..], cfg)
  }

  function Sent(w: World, c: Command): World {
    w.(wire := w.wire + [c])
  }

  // ---- Every command the master is still to act on ----

  function Mail(w: World): seq<Command> {
    Box(w.master) + w.wire
  }

  function Box(s: State): seq<Command> {
    (if s.active.Some? then [s.active.value] else []) +
    (if s.pending.Some? then [s.pending.value] else [])
  }

  lemma BoxAfterCycle(s: State, arrivals: seq<Command>, cfg: Config)
    ensures var q := Box(s) + arrivals;
      Box(Cycle(s, arrivals, cfg)) == if q == [] then [] else q[|q| - 1..]
    ensures Swap(ReadHost(s, arrivals), cfg).active == Cycle(s, arrivals, cfg).active
  {
    hide ApplyChains, PollMotor, AnyArmed, CarriesReset;
  }

  /** A cycle takes mail from the front and never reorders it: what is left begins with the command
      it acted on. */
  lemma CycleTakesMail(w: World, count: nat, cfg: Config) returns (p: nat)
    ensures p <= |Mail(w)|
    ensures Mail(Apply(w, MasterCycle(count), cfg)) == Mail(w)[p..]
    ensures var n := Min(count, |w.wire|);
      var s1 := Swap(ReadHost(w.master, w.wire[..n]), cfg);
      && (s1.active.Some? ==> p < |Mail(w)| && s1.active.value == Mail(w)[p])
      && s1.pending.None?
  {
    hide *;
    var n := Min(count, |w.wire|);
    ReadsAtMost(w, count);
    var arrivals, rest := w.wire[..n], w.wire[n..];
    CycleMailIs(w, count, cfg);
    MailSplits(w, n);
    SwapEmptiesMailbox(w.master, arrivals, cfg);
    CycleMailActive(w.master, arrivals, cfg);
    p := LastOf(Box(w.master), arrivals, rest);
  }

  lemma ReadsAtMost(w: World, count: nat)
    ensures Min(count, |w.wire|) <= |w.wire|
  {
  }

  lemma CycleMailIs(w: World, count: nat, cfg: Config)
    ensures var n := Min(count, |w.wire|);
      var q := Box(w.master) + w.wire[..n];
      && Box(Cycle(w.master, w.wire[..n], cfg)) == (if q == [] then [] else q[|q| - 1..])
      && Mail(Apply(w, MasterCycle(count), cfg)) == (if q == [] then [] else q[|q| - 1..]) + w.wire[n..]
  {
    hide Cycle, Happen, Box;
    var n := Min(count, |w.wire|);
    CycleHappens(w.master, CycleWith(w.wire[..n]), cfg);
    BoxAfterCycle(w.master, w.wire[..n], cfg);
  }

  lemma MailSplits(w: World, n: nat)
    requires n <= |w.wire|
    ensures Mail(w) == Box(w.master) + w.wire[..n] + w.wire[n..]
  {
    hide Box;
    assert w.wire == w.wire[..n] + w.wire[n..];
  }

  function LastOf(box: seq<Command>, arrivals: seq<Command>, rest: seq<Command>): (p: nat)
    ensures var q := box + arrivals;
      && p <= |q| && (q == [] ==> p == 0) && (q != [] ==> p == |q| - 1)
      && (q + rest)[p..] == (if q == [] then [] else q[|q| - 1..]) + rest
  {
    if box + arrivals == [] then 0 else |box + arrivals| - 1
  }

  lemma SwapEmptiesMailbox(s: State, arrivals: seq<Command>, cfg: Config)
    ensures Swap(ReadHost(s, arrivals), cfg).pending.None?
  {
    hide AnyArmed, CarriesReset;
  }

  lemma CycleMailActive(s: State, arrivals: seq<Command>, cfg: Config)
    ensures var s1 := Swap(ReadHost(s, arrivals), cfg);
      s1.active.Some? ==> Box(Cycle(s, arrivals, cfg)) == [s1.active.value]
  {
    hide ApplyChains, PollMotor, AnyArmed, CarriesReset;
  }

  lemma BetweenKeepsBox(s: State, e: Event, cfg: Config)
    requires !e.CycleWith?
    ensures Box(Happen(s, e, cfg)) == Box(s)
  {
  }

  /** Every move leaves a subsequence of the mail: a property of any three commands, in order,
      survives it. */
  ghost predicate InOrder(R: (Command, Command, Command) -> bool, q: seq<Command>) {
    forall i, j, l :: 0 <= i <= j <= l < |q| ==> R(q[i], q[j], q[l])
  }

  lemma SuffixInOrder(R: (Command, Command, Command) -> bool, q: seq<Command>, p: nat)
    requires p <= |q| && InOrder(R, q)
    ensures InOrder(R, q[p..])
  {
  }

  lemma WithoutInOrder(R: (Command, Command, Command) -> bool, q: seq<Command>, at: nat)
    requires at < |q| && InOrder(R, q)
    ensures InOrder(R, Without(q, at))
  {
    var r := Without(q, at);
    forall i, j, l | 0 <= i <= j <= l < |r|
      ensures R(r[i], r[j], r[l])
    {
      assert r[i] == q[if i < at then i else i + 1] && r[j] == q[if j < at then j else j + 1];
      assert r[l] == q[if l < at then l else l + 1];
    }
  }

  function Without(q: seq<Command>, at: nat): seq<Command>
    requires at < |q|
  {
    q[..at] + q[at + 1..]
  }

  lemma LossTakesMail(w: World, i: nat, cfg: Config)
    requires i < |w.wire|
    ensures var at := |Box(w.master)| + i;
      at < |Mail(w)| && Mail(Apply(w, LoseCommand(i), cfg)) == Without(Mail(w), at)
  {
    hide Happen, Box;
  }

  lemma OtherMovesLeaveMail(w: World, m: Move, cfg: Config)
    requires !m.MasterCycle? && !(m.LoseCommand? && m.i < |w.wire|)
    ensures Mail(Apply(w, m, cfg)) == Mail(w)
  {
    hide Happen, Box;
    if m.Between? && !m.event.CycleWith? {
      BetweenKeepsBox(w.master, m.event, cfg);
    }
  }

  lemma MovesKeepOrder(R: (Command, Command, Command) -> bool, w: World, m: Move, cfg: Config)
    requires InOrder(R, Mail(w))
    ensures InOrder(R, Mail(Apply(w, m, cfg)))
  {
    hide Happen, Mail, InOrder, Apply, Box, Swap, ReadHost, Without;
    if m.MasterCycle? {
      var p := CycleTakesMail(w, m.count, cfg);
      SuffixInOrder(R, Mail(w), p);
    } else if m.LoseCommand? && m.i < |w.wire| {
      LossTakesMail(w, m.i, cfg);
      WithoutInOrder(R, Mail(w), |Box(w.master)| + m.i);
    } else {
      OtherMovesLeaveMail(w, m, cfg);
    }
  }

  ghost predicate Everywhere(R: Command -> bool, w: World) {
    forall c :: c in Mail(w) ==> R(c)
  }

  lemma MovesKeepEverywhere(R: Command -> bool, w: World, m: Move, cfg: Config)
    requires Everywhere(R, w)
    ensures Everywhere(R, Apply(w, m, cfg))
  {
    hide Happen, Mail, Apply;
    MovesKeepOrder((a: Command, b: Command, c: Command) => R(c), w, m, cfg);
  }

  // ---- What of it can still be acted on ----

  /** From the first RESET on. */
  function Heard(q: seq<Command>): seq<Command> {
    if q == [] || CarriesReset(q[0]) then q else Heard(q[1..])
  }

  /** The commands the master can still act on. While the host is lost it asks STOP of every motor,
      whatever a command says, until one arrives that carries RESET. */
  function Live(w: World): seq<Command> {
    if w.master.hostLost then Heard(Mail(w)) else Mail(w)
  }

  lemma {:induction false} HeardFrom(q: seq<Command>) returns (f: nat)
    ensures f <= |q| && Heard(q) == q[f..]
    ensures f < |q| ==> CarriesReset(q[f])
    ensures forall i :: 0 <= i < f ==> !CarriesReset(q[i])
  {
    hide CarriesReset;
    if q == [] || CarriesReset(q[0]) {
      f := 0;
    } else {
      var g := HeardFrom(q[1..]);
      f := g + 1;
      forall i | 0 <= i < f
        ensures !CarriesReset(q[i])
      {
        assert i > 0 ==> q[i] == q[1..][i - 1];
      }
    }
  }

  lemma HeardOfSuffix(q: seq<Command>, p: nat) returns (r: nat)
    requires p <= |q|
    ensures r <= |Heard(q)| && Heard(q[p..]) == Heard(q)[r..]
    ensures p < |q| && CarriesReset(q[p]) ==> Heard(q)[r..] == q[p..]
  {
    hide CarriesReset, Heard;
    var f := HeardFrom(q);
    var g := HeardFrom(q[p..]);
    r := p + g - f;
  }

  lemma HeardOfWithout(R: (Command, Command, Command) -> bool, q: seq<Command>, at: nat)
    requires at < |q| && InOrder(R, Heard(q))
    ensures InOrder(R, Heard(Without(q, at)))
  {
    hide CarriesReset, Heard, InOrder;
    var f := HeardFrom(q);
    var g := HeardFrom(Without(q, at));
    if at < f {
      assert Without(q, at)[f - 1..] == q[f..];
      assert g == f - 1;
    } else if at == f {
      assert g >= f && Without(q, at)[g..] == Heard(q)[g + 1 - f..];
      SuffixInOrder(R, Heard(q), g + 1 - f);
    } else {
      assert Without(q, at)[f] == q[f] && forall i :: 0 <= i < f ==> Without(q, at)[i] == q[i];
      assert g == f;
      assert Without(q, at)[f..] == Without(q[f..], at - f);
      WithoutInOrder(R, Heard(q), at - f);
    }
  }

  /** A cycle takes live mail from the front; and unless the host is lost, what is left begins with
      the command it acted on. */
  lemma CycleTakesLive(w: World, count: nat, cfg: Config) returns (r: nat)
    ensures r <= |Live(w)| && Live(Apply(w, MasterCycle(count), cfg)) == Live(w)[r..]
    ensures var n := Min(count, |w.wire|);
      var s1 := Swap(ReadHost(w.master, w.wire[..n]), cfg);
      && s1.hostLost == Apply(w, MasterCycle(count), cfg).master.hostLost
      && (!s1.hostLost && s1.active.Some? ==> r < |Live(w)| && s1.active.value == Live(w)[r])
  {
    hide Cycle, Mail, AnyArmed, CarriesReset;
    var p := CycleTakesMail(w, count, cfg);
    var arrivals := w.wire[..Min(count, |w.wire|)];
    CycleHappens(w.master, CycleWith(arrivals), cfg);
    CycleLost(w.master, arrivals, cfg);
    r := HeardOfSuffix(Mail(w), p);
    if !w.master.hostLost {
      if Apply(w, MasterCycle(count), cfg).master.hostLost {
        var f := HeardFrom(Mail(w)[p..]);
        r := p + f;
      } else {
        r := p;
      }
    }
  }

  lemma MovesKeepLive(R: (Command, Command, Command) -> bool, w: World, m: Move, cfg: Config)
    requires InOrder(R, Live(w))
    ensures InOrder(R, Live(Apply(w, m, cfg)))
  {
    hide Happen, Mail, InOrder, Heard, Box, Swap, ReadHost, Without;
    if m.MasterCycle? {
      var r := CycleTakesLive(w, m.count, cfg);
      SuffixInOrder(R, Live(w), r);
    } else if m.LoseCommand? && m.i < |w.wire| {
      LossTakesMail(w, m.i, cfg);
      if w.master.hostLost {
        HeardOfWithout(R, Mail(w), |Box(w.master)| + m.i);
      } else {
        WithoutInOrder(R, Mail(w), |Box(w.master)| + m.i);
      }
    } else {
      OtherMovesLeaveMail(w, m, cfg);
      OtherMovesLeaveHost(w, m, cfg);
    }
  }

  lemma OtherMovesLeaveHost(w: World, m: Move, cfg: Config)
    requires !m.MasterCycle?
    ensures Apply(w, m, cfg).master.hostLost == w.master.hostLost
  {
  }

  ghost predicate InLive(R: Command -> bool, w: World) {
    forall c :: c in Live(w) ==> R(c)
  }

  lemma MovesKeepInLive(R: Command -> bool, w: World, m: Move, cfg: Config)
    requires InLive(R, w)
    ensures InLive(R, Apply(w, m, cfg))
  {
    hide Happen, Live, Apply;
    MovesKeepLive((a: Command, b: Command, c: Command) => R(c), w, m, cfg);
  }

  lemma LiveIsMail(w: World)
    ensures forall c :: c in Live(w) ==> c in Mail(w)
  {
    hide Mail, Heard;
    var f := HeardFrom(Mail(w));
  }

  /** A command sent joins the live mail, or while the host is lost comes to nothing. */
  lemma LiveSent(w: World, cmd: Command)
    ensures Live(Sent(w, cmd)) == Live(w) + [cmd] || Live(Sent(w, cmd)) == []
  {
    hide Box, Heard, CarriesReset;
    var q := Mail(w);
    assert Mail(Sent(w, cmd)) == q + [cmd];
    var f := HeardFrom(q);
    var g := HeardFrom(q + [cmd]);
    assert f < |q| ==> CarriesReset((q + [cmd])[f]);
    assert forall i :: 0 <= i < f ==> (q + [cmd])[i] == q[i];
    assert g >= f;
  }

  lemma {:induction false} AfterKeeps(I: World -> bool, w: World, moves: seq<Move>, cfg: Config)
    requires I(w) && forall v: World, m: Move :: I(v) ==> I(Apply(v, m, cfg))
    ensures I(After(w, moves, cfg))
    decreases |moves|
  {
    hide Apply;
    if moves == [] {
    } else {
      AfterKeeps(I, Apply(w, moves[0], cfg), moves[1..], cfg);
    }
  }

  // ---- The robot and its reports ----

  predicate DistinctIds(chains: seq<Chain>) {
    forall a, b :: 0 <= a < b < |chains| ==> chains[a].id != chains[b].id
  }

  /** A robot the wire can carry: its chains have their own ids and fit the frame. */
  predicate Carriable(chains: seq<Chain>) {
    && |chains| <= MAX_CHAINS && DistinctIds(chains)
    && forall c :: 0 <= c < |chains| ==> |chains[c].motors| <= MAX_MOTORS
  }

  /** The same robot, later: nothing about its shape changes, and the counts only grow. */
  predicate Grows(a: seq<Chain>, b: seq<Chain>) {
    && SameShape(a, b)
    && forall c, k :: 0 <= c < |a| && 0 <= k < |a[c].motors| ==> CountsGrow(a[c].motors[k], b[c].motors[k])
  }

  predicate CountsGrow(m: Motor, n: Motor) {
    m.reboots <= n.reboots && m.spurious <= n.spurious
  }

  lemma GrowsChain(a: seq<Chain>, b: seq<Chain>, c: seq<Chain>)
    ensures Grows(a, a)
    ensures Grows(a, b) && Grows(b, c) ==> Grows(a, c)
  {
  }

  lemma CycleGrows(s: State, arrivals: seq<Command>, cfg: Config)
    ensures Grows(s.chains, Cycle(s, arrivals, cfg).chains)
  {
    hide Cycle, PollMotor, ApplyRequest, Swap, ReadHost, Forwarded;
    HappenKeepsShape(s, CycleWith(arrivals), cfg);
    CycleHappens(s, CycleWith(arrivals), cfg);
    var t := Cycle(s, arrivals, cfg);
    forall c, k | 0 <= c < |s.chains| && 0 <= k < |s.chains[c].motors|
      ensures CountsGrow(s.chains[c].motors[k], t.chains[c].motors[k])
    {
      var was := s.chains[c].motors[k];
      var P := (m: Motor) => m.reboots == was.reboots && m.spurious == was.spurious;
      forall m: Motor, r: CmdMotor, q: u16
        ensures ApplyRequest(m, r, q).reboots == m.reboots && ApplyRequest(m, r, q).spurious == m.spurious
      {
        RequestKeepsCounts(m, r, q);
      }
      forall m: Motor
        ensures PollMotor(m, cfg).reboots == m.reboots && PollMotor(m, cfg).spurious == m.spurious
      {
        PollKeepsCounts(m, cfg);
      }
      CycleCarries(P, P, _ => true, s, arrivals, cfg, c, k);
    }
  }

  lemma HappenGrows(s: State, e: Event, cfg: Config)
    ensures Grows(s.chains, Happen(s, e, cfg).chains)
  {
    hide Cycle, OnFault;
    if e.CycleWith? {
      CycleGrows(s, e.arrivals, cfg);
      CycleHappens(s, e, cfg);
    } else {
      HappenKeepsShape(s, e, cfg);
    }
  }

  ghost predicate Sound(w: World) {
    && Carriable(w.master.chains) && w.delivered <= |w.tele|
    && (forall i :: 0 <= i < |w.tele| ==> Grows(w.tele[i].chains, w.master.chains))
    && (forall i, j :: 0 <= i <= j < |w.tele| ==> Grows(w.tele[i].chains, w.tele[j].chains))
  }

  lemma MoveGrows(w: World, m: Move, cfg: Config)
    ensures Grows(w.master.chains, Apply(w, m, cfg).master.chains)
  {
    hide Happen, Grows;
    GrowsChain(w.master.chains, w.master.chains, w.master.chains);
    match m
    case MasterCycle(count) =>
      HappenGrows(w.master, CycleWith(w.wire[..Min(count, |w.wire|)]), cfg);
    case Between(e) => HappenGrows(w.master, e, cfg);
    case _ =>
  }

  lemma MoveReports(w: World, m: Move, cfg: Config)
    ensures var v := Apply(w, m, cfg);
      && v.tele == (if m.MasterCycle? then w.tele + [v.master] else w.tele)
      && w.delivered <= v.delivered && (w.delivered <= |w.tele| ==> v.delivered <= |v.tele|)
      && (w.failed ==> v.failed)
  {
    hide Happen;
  }

  lemma MoveKeepsSound(w: World, m: Move, cfg: Config)
    requires Sound(w)
    ensures Sound(Apply(w, m, cfg))
    ensures Grows(w.master.chains, Apply(w, m, cfg).master.chains)
  {
    hide Apply, Grows, Carriable;
    var v := Apply(w, m, cfg);
    MoveGrows(w, m, cfg);
    MoveReports(w, m, cfg);
    CarriableAlike(w.master.chains, v.master.chains);
    GrowsChain(v.master.chains, v.master.chains, v.master.chains);
    forall i | 0 <= i < |w.tele|
      ensures Grows(w.tele[i].chains, v.master.chains)
    {
      GrowsChain(w.tele[i].chains, w.master.chains, v.master.chains);
    }
  }

  lemma CarriableAlike(a: seq<Chain>, b: seq<Chain>)
    requires Carriable(a) && (Grows(a, b) || Grows(b, a))
    ensures Carriable(b)
  {
  }

  /** Telemetry is only ever added to, deliveries only move forward, and a link that failed stays so. */
  predicate Extends(v: World, w: World) {
    && w.tele <= v.tele && w.delivered <= v.delivered && Grows(w.master.chains, v.master.chains)
    && (w.failed ==> v.failed)
  }

  lemma {:induction false} AfterExtends(w: World, moves: seq<Move>, cfg: Config)
    requires Sound(w)
    ensures Sound(After(w, moves, cfg)) && Extends(After(w, moves, cfg), w)
    decreases |moves|
  {
    hide Apply, Sound, Grows;
    if moves == [] {
      GrowsChain(w.master.chains, w.master.chains, w.master.chains);
    } else {
      var v := Apply(w, moves[0], cfg);
      MoveKeepsSound(w, moves[0], cfg);
      MoveReports(w, moves[0], cfg);
      AfterExtends(v, moves[1..], cfg);
      GrowsChain(w.master.chains, v.master.chains, After(w, moves, cfg).master.chains);
    }
  }

  // ---- Before arming: nothing asking to be armed ----

  /** Motor k of a chain `id` is armed. */
  ghost predicate ArmedIn(s: State, id: byte, k: nat) {
    exists c: nat :: ArmedOn(s, c, id, k)
  }

  predicate ArmedOn(s: State, c: nat, id: byte, k: nat) {
    Exists(s, c, k) && s.chains[c].id == id && IsArmed(MotorAt(s, c, k).driveState)
  }

  /** No request for the slot is ENABLE or brings a tuple. */
  predicate QuietAt(cmd: Command, id: byte, k: nat) {
    forall i :: 0 <= i < MAX_CHAINS && cmd.chains[i].chainId == id && k < MAX_MOTORS ==>
      !cmd.chains[i].motors[k].driveReq.Enable? && !cmd.chains[i].motors[k].valid
  }

  /** Nor for any slot. */
  predicate Idle(cmd: Command) {
    forall i, k :: 0 <= i < MAX_CHAINS && 0 <= k < MAX_MOTORS ==>
      !cmd.chains[i].motors[k].driveReq.Enable? && !cmd.chains[i].motors[k].valid
  }

  lemma IdleIsQuiet(cmd: Command, id: byte, k: nat)
    requires Idle(cmd)
    ensures QuietAt(cmd, id, k)
  {
  }

  /** Nothing the master can still act on would arm the motor. */
  ghost predicate QuietMail(w: World, id: byte, k: nat) {
    forall c :: c in Live(w) ==> QuietAt(c, id, k)
  }

  /** In so many words: no ENABLE for the motor, unless the host is lost and no RESET comes before it. */
  lemma QuietMailExactly(w: World, id: byte, k: nat)
    ensures var q := Mail(w);
      QuietMail(w, id, k) <==>
      if w.master.hostLost
      then forall i, j :: 0 <= i <= j < |q| && CarriesReset(q[i]) ==> QuietAt(q[j], id, k)
      else forall j :: 0 <= j < |q| ==> QuietAt(q[j], id, k)
  {
    hide Mail, CarriesReset, QuietAt, Heard;
    var q := Mail(w);
    if w.master.hostLost {
      var f := HeardFrom(q);
      assert forall j :: f <= j < |q| ==> q[j] == q[f..][j - f];
    }
  }

  lemma MoveKeepsQuietMail(w: World, m: Move, cfg: Config, id: byte, k: nat)
    requires QuietMail(w, id, k)
    ensures QuietMail(Apply(w, m, cfg), id, k)
  {
    hide Happen, Live, Apply, QuietAt;
    MovesKeepInLive((c: Command) => QuietAt(c, id, k), w, m, cfg);
  }

  lemma QuietMailSent(w: World, cmd: Command, id: byte, k: nat)
    requires QuietMail(w, id, k) && QuietAt(cmd, id, k)
    ensures QuietMail(Sent(w, cmd), id, k)
  {
    hide QuietAt, Live;
    LiveSent(w, cmd);
  }

  /** Since the report `from`, the motor has not become armed: once reported unarmed, it is reported
      unarmed in every later report, and is unarmed now. */
  ghost predicate StaysUnarmed(w: World, from: nat, id: byte, k: nat) {
    && (forall i, j :: from <= i <= j < |w.tele| && !ArmedIn(w.tele[i], id, k) ==>
      !ArmedIn(w.tele[j], id, k))
    && (forall i :: from <= i < |w.tele| && !ArmedIn(w.tele[i], id, k) ==> !ArmedIn(w.master, id, k))
  }

  /** Nothing in the mail would arm the motor, and nothing has armed it since the report `from`. */
  ghost predicate Settled(w: World, from: nat, id: byte, k: nat) {
    QuietMail(w, id, k) && StaysUnarmed(w, from, id, k)
  }

  /** With every report delivered, it is enough that nothing in the mail would. */
  lemma QuietMailIsSettled(w: World, id: byte, k: nat)
    requires QuietMail(w, id, k)
    ensures Settled(w, |w.tele|, id, k)
  {
  }

  /** A robot that has just come up, and a link that has carried nothing, are settled. */
  lemma FreshIsSettled(w: World, from: nat, id: byte, k: nat)
    requires w.master.active.None? && w.master.pending.None? && w.wire == [] && w.tele == []
    ensures Settled(w, from, id, k)
  {
  }

  /** With the host lost, or a command acted on that is quiet at the motor, it stays unarmed. */
  lemma UnheardOrQuietKeepsOff(s: State, arrivals: seq<Command>, cfg: Config, c: nat, id: byte, k: nat)
    requires Exists(s, c, k) && s.chains[c].id == id && !IsArmed(MotorAt(s, c, k).driveState)
    requires var s1 := Swap(ReadHost(s, arrivals), cfg);
      s1.hostLost || (s1.active.Some? ==> QuietAt(s1.active.value, id, k))
    ensures Exists(Cycle(s, arrivals, cfg), c, k)
    ensures !IsArmed(MotorAt(Cycle(s, arrivals, cfg), c, k).driveState)
  {
    hide PollMotor, ApplyRequest, Cycle, Forwarded, AnyArmed, CarriesReset;
    var P := (m: Motor) => !IsArmed(m.driveState);
    var s1 := Swap(ReadHost(s, arrivals), cfg);
    var R := (r: CmdMotor) => s1.hostLost || !r.driveReq.Enable?;
    forall m: Motor, r: CmdMotor, q: u16, gate: bool | P(m) && R(r)
      ensures P(ApplyRequest(m, Forwarded(r, m.driveState, s1.hostLost, gate), q))
    {
      NoEnableArmsNothing(m, r, q, s1.hostLost, gate);
    }
    forall m: Motor | P(m)
      ensures P(PollMotor(m, cfg))
    {
      PollIsStep(m, cfg);
    }
    CycleCarries(P, P, R, s, arrivals, cfg, c, k);
  }

  lemma NoEnableArmsNothing(m: Motor, r: CmdMotor, q: u16, lost: bool, gate: bool)
    requires !IsArmed(m.driveState) && (lost || !r.driveReq.Enable?)
    ensures !IsArmed(ApplyRequest(m, Forwarded(r, m.driveState, lost, gate), q).driveState)
  {
    RequestIsStep(m, Forwarded(r, m.driveState, lost, gate), q);
    hide ApplyRequest;
  }

  lemma QuietCycleArmsNothing(s: State, arrivals: seq<Command>, cfg: Config, id: byte, k: nat)
    requires !ArmedIn(s, id, k)
    requires var s1 := Swap(ReadHost(s, arrivals), cfg);
      s1.hostLost || (s1.active.Some? ==> QuietAt(s1.active.value, id, k))
    ensures !ArmedIn(Happen(s, CycleWith(arrivals), cfg), id, k)
  {
    hide Cycle, Happen, Swap, ReadHost, QuietAt;
    CycleHappens(s, CycleWith(arrivals), cfg);
    HappenKeepsShape(s, CycleWith(arrivals), cfg);
    var t := Happen(s, CycleWith(arrivals), cfg);
    forall c: nat
      ensures !ArmedOn(t, c, id, k)
    {
      if Exists(t, c, k) && t.chains[c].id == id {
        assert Exists(s, c, k) && !ArmedOn(s, c, id, k);
        UnheardOrQuietKeepsOff(s, arrivals, cfg, c, id, k);
      }
    }
  }

  lemma BetweenArmsNothing(s: State, e: Event, cfg: Config, id: byte, k: nat)
    requires !e.CycleWith? && !ArmedIn(s, id, k)
    ensures !ArmedIn(Happen(s, e, cfg), id, k)
  {
    hide Happen;
    HappenKeepsShape(s, e, cfg);
    var t := Happen(s, e, cfg);
    forall c: nat
      ensures !ArmedOn(t, c, id, k)
    {
      if Exists(t, c, k) && t.chains[c].id == id {
        assert Exists(s, c, k) && !ArmedOn(s, c, id, k);
        BetweenCyclesArmsNothing(s, e, cfg, c, k);
      }
    }
  }

  /** With quiet mail, no move arms the motor. */
  lemma MoveArmsNothing(w: World, m: Move, cfg: Config, id: byte, k: nat)
    requires QuietMail(w, id, k) && !ArmedIn(w.master, id, k)
    ensures !ArmedIn(Apply(w, m, cfg).master, id, k)
  {
    hide Happen, ArmedIn, QuietAt, Live, Swap, ReadHost;
    match m
    case MasterCycle(count) =>
      var p := CycleTakesLive(w, count, cfg);
      QuietCycleArmsNothing(w.master, w.wire[..Min(count, |w.wire|)], cfg, id, k);
    case Between(e) =>
      if !e.CycleWith? {
        BetweenArmsNothing(w.master, e, cfg, id, k);
      }
    case _ =>
  }

  lemma MoveKeepsSettled(w: World, m: Move, cfg: Config, from: nat, id: byte, k: nat)
    requires Settled(w, from, id, k)
    ensures Settled(Apply(w, m, cfg), from, id, k)
  {
    hide Apply, ArmedIn, QuietMail;
    var v := Apply(w, m, cfg);
    MoveKeepsQuietMail(w, m, cfg, id, k);
    MoveReports(w, m, cfg);
    if !ArmedIn(w.master, id, k) {
      MoveArmsNothing(w, m, cfg, id, k);
    }
  }

  lemma SettledAfter(w: World, moves: seq<Move>, cfg: Config, from: nat, id: byte, k: nat)
    requires Settled(w, from, id, k)
    ensures Settled(After(w, moves, cfg), from, id, k)
  {
    hide Settled, Apply, After;
    forall v: World, m: Move | Settled(v, from, id, k)
      ensures Settled(Apply(v, m, cfg), from, id, k)
    {
      MoveKeepsSettled(v, m, cfg, from, id, k);
    }
    AfterKeeps(v => Settled(v, from, id, k), w, moves, cfg);
  }

  lemma SettledSent(w: World, cmd: Command, from: nat, id: byte, k: nat)
    requires Settled(w, from, id, k) && QuietAt(cmd, id, k)
    ensures Settled(Sent(w, cmd), from, id, k)
  {
    hide ArmedIn, QuietAt, QuietMail;
    QuietMailSent(w, cmd, id, k);
  }

  lemma {:induction false} UnarmedAfter(w: World, moves: seq<Move>, cfg: Config, id: byte, k: nat)
    requires QuietMail(w, id, k)
    ensures QuietMail(After(w, moves, cfg), id, k)
    ensures !ArmedIn(w.master, id, k) ==> !ArmedIn(After(w, moves, cfg).master, id, k)
    decreases |moves|
  {
    hide Apply, QuietMail, ArmedIn;
    if moves == [] {
    } else {
      MoveKeepsQuietMail(w, moves[0], cfg, id, k);
      if !ArmedIn(w.master, id, k) {
        MoveArmsNothing(w, moves[0], cfg, id, k);
      }
      UnarmedAfter(Apply(w, moves[0], cfg), moves[1..], cfg, id, k);
    }
  }

  // ---- No RESET ----

  ghost predicate AllNoReset(w: World) {
    Everywhere(AsksNoReset, w)
  }

  lemma NoResetSent(w: World, cmd: Command)
    requires AllNoReset(w) && AsksNoReset(cmd)
    ensures AllNoReset(Sent(w, cmd))
  {
    hide AsksNoReset, Box;
    assert Mail(Sent(w, cmd)) == Mail(w) + [cmd];
  }

  // ---- The target of one slot ----

  /** In every slot k of a chain `id`: an ENABLE brings a tuple, and any tuple aims at h. */
  predicate AimsAt(cmd: Command, id: byte, k: nat, h: i16) {
    forall i :: 0 <= i < MAX_CHAINS && cmd.chains[i].chainId == id && k < MAX_MOTORS ==>
      var r := cmd.chains[i].motors[k];
      (r.driveReq.Enable? ==> r.valid) && (r.valid ==> r.pos == h)
  }

  /** Armed and not yet stopping, the motor holds h. */
  predicate Aimed(m: Motor, h: i16) {
    m.driveState.Enabling? || m.driveState.Enabled? ==> m.haveTuple && m.hold == h
  }

  ghost predicate AimedIn(s: State, id: byte, k: nat, h: i16) {
    forall c: nat :: Exists(s, c, k) && s.chains[c].id == id ==> Aimed(MotorAt(s, c, k), h)
  }

  ghost predicate AimedSlot(w: World, from: nat, id: byte, k: nat, h: i16) {
    && (forall c :: c in Live(w) ==> AimsAt(c, id, k, h))
    && AimedIn(w.master, id, k, h)
    && (forall i :: from <= i < |w.tele| ==> AimedIn(w.tele[i], id, k, h))
  }

  lemma RequestKeepsAimed(m: Motor, r: CmdMotor, q: u16, h: i16)
    requires Aimed(m, h) && (r.driveReq.Enable? ==> r.valid) && (r.valid ==> r.pos == h)
    ensures Aimed(ApplyRequest(m, r, q), h)
  {
  }

  lemma PollKeepsAimed(m: Motor, cfg: Config, h: i16)
    requires Aimed(m, h)
    ensures Aimed(PollMotor(m, cfg), h)
  {
  }

  /** What is forwarded of a request: STOP with no tuple while the host is lost. */
  lemma ForwardedAims(m: Motor, r: CmdMotor, q: u16, lost: bool, gate: bool, h: i16)
    requires Aimed(m, h) && (lost || ((r.driveReq.Enable? ==> r.valid) && (r.valid ==> r.pos == h)))
    ensures Aimed(ApplyRequest(m, Forwarded(r, m.driveState, lost, gate), q), h)
  {
    hide ApplyRequest, Aimed;
    RequestKeepsAimed(m, Forwarded(r, m.driveState, lost, gate), q, h);
  }

  lemma AimedCycle(s: State, arrivals: seq<Command>, cfg: Config, id: byte, k: nat, h: i16)
    requires AimedIn(s, id, k, h)
    requires var s1 := Swap(ReadHost(s, arrivals), cfg);
      s1.hostLost || (s1.active.Some? ==> AimsAt(s1.active.value, id, k, h))
    ensures AimedIn(Happen(s, CycleWith(arrivals), cfg), id, k, h)
  {
    hide PollMotor, ApplyRequest, Cycle, Happen, Aimed, AnyArmed, CarriesReset, Forwarded;
    var P := (m: Motor) => Aimed(m, h);
    var lost := Swap(ReadHost(s, arrivals), cfg).hostLost;
    var R := (r: CmdMotor) => lost || ((r.driveReq.Enable? ==> r.valid) && (r.valid ==> r.pos == h));
    forall m: Motor, r: CmdMotor, q: u16, gate: bool | P(m) && R(r)
      ensures P(ApplyRequest(m, Forwarded(r, m.driveState, lost, gate), q))
    {
      ForwardedAims(m, r, q, lost, gate, h);
    }
    forall m: Motor | P(m)
      ensures P(PollMotor(m, cfg))
    {
      PollKeepsAimed(m, cfg, h);
    }
    CycleHappens(s, CycleWith(arrivals), cfg);
    HappenKeepsShape(s, CycleWith(arrivals), cfg);
    var t := Happen(s, CycleWith(arrivals), cfg);
    forall c: nat | Exists(t, c, k) && t.chains[c].id == id
      ensures Aimed(MotorAt(t, c, k), h)
    {
      assert Exists(s, c, k);
      CycleCarries(P, P, R, s, arrivals, cfg, c, k);
    }
  }

  lemma AimedBetween(s: State, e: Event, cfg: Config, id: byte, k: nat, h: i16)
    requires !e.CycleWith? && AimedIn(s, id, k, h)
    ensures AimedIn(Happen(s, e, cfg), id, k, h)
  {
    hide OnFault;
    HappenKeepsShape(s, e, cfg);
    var t := Happen(s, e, cfg);
    forall c: nat | Exists(t, c, k) && t.chains[c].id == id
      ensures Aimed(MotorAt(t, c, k), h)
    {
      assert Exists(s, c, k);
      AimedEvent(s, e, cfg, c, k, h);
    }
  }

  lemma AimedEvent(s: State, e: Event, cfg: Config, c: nat, k: nat, h: i16)
    requires !e.CycleWith? && Exists(s, c, k) && Aimed(MotorAt(s, c, k), h)
    ensures Exists(Happen(s, e, cfg), c, k) && Aimed(MotorAt(Happen(s, e, cfg), c, k), h)
  {
    EventChangesOne(s, e, cfg, c, k);
    hide Happen;
  }

  lemma MoveKeepsAimedSlot(w: World, m: Move, cfg: Config, from: nat, id: byte, k: nat, h: i16)
    requires AimedSlot(w, from, id, k, h)
    ensures AimedSlot(Apply(w, m, cfg), from, id, k, h)
  {
    hide Happen, AimedIn, AimsAt, Live, Swap, ReadHost;
    MovesKeepInLive((c: Command) => AimsAt(c, id, k, h), w, m, cfg);
    match m
    case MasterCycle(count) =>
      var p := CycleTakesLive(w, count, cfg);
      AimedCycle(w.master, w.wire[..Min(count, |w.wire|)], cfg, id, k, h);
    case Between(e) =>
      if !e.CycleWith? {
        AimedBetween(w.master, e, cfg, id, k, h);
      }
    case _ =>
  }

  lemma AimedAfter(w: World, moves: seq<Move>, cfg: Config, from: nat, id: byte, k: nat, h: i16)
    requires AimedSlot(w, from, id, k, h)
    ensures AimedSlot(After(w, moves, cfg), from, id, k, h)
  {
    hide AimedSlot, Apply, After;
    forall v: World, m: Move | AimedSlot(v, from, id, k, h)
      ensures AimedSlot(Apply(v, m, cfg), from, id, k, h)
    {
      MoveKeepsAimedSlot(v, m, cfg, from, id, k, h);
    }
    AfterKeeps(v => AimedSlot(v, from, id, k, h), w, moves, cfg);
  }

  lemma AimedSent(w: World, cmd: Command, from: nat, id: byte, k: nat, h: i16)
    requires AimedSlot(w, from, id, k, h) && AimsAt(cmd, id, k, h)
    ensures AimedSlot(Sent(w, cmd), from, id, k, h)
  {
    hide AimedIn, AimsAt, Live;
    LiveSent(w, cmd);
  }

  /** A settled motor is aimed anywhere one likes, from any report on that showed it unarmed. */
  lemma SettledIsAimed(w: World, from: nat, at: nat, id: byte, k: nat, h: i16)
    requires Settled(w, from, id, k) && from <= at < |w.tele| && !ArmedIn(w.tele[at], id, k)
    ensures AimedSlot(w, at, id, k, h)
  {
    hide Live, ArmedIn, AimedIn, QuietAt, AimsAt;
    forall c | c in Live(w)
      ensures AimsAt(c, id, k, h)
    {
      QuietAimsAnywhere(c, id, k, h);
    }
    UnarmedIsAimed(w.master, id, k, h);
    forall i | at <= i < |w.tele|
      ensures AimedIn(w.tele[i], id, k, h)
    {
      UnarmedIsAimed(w.tele[i], id, k, h);
    }
  }

  lemma UnarmedIsAimed(s: State, id: byte, k: nat, h: i16)
    requires !ArmedIn(s, id, k)
    ensures AimedIn(s, id, k, h)
  {
    forall c: nat | Exists(s, c, k) && s.chains[c].id == id
      ensures Aimed(MotorAt(s, c, k), h)
    {
      assert !ArmedOn(s, c, id, k);
    }
  }

  lemma QuietAimsAnywhere(cmd: Command, id: byte, k: nat, h: i16)
    requires QuietAt(cmd, id, k)
    ensures AimsAt(cmd, id, k, h)
  {
  }

  // ---- Running: FAULT stays FAULT ----

  /** Every motor in FAULT is still, unless its slave has started again in between. */
  ghost predicate FaultsKept(a: State, b: State) {
    && Grows(a.chains, b.chains)
    && forall c: nat, k: nat ::
      Exists(a, c, k) && Exists(b, c, k) && MotorAt(a, c, k).driveState.Fault? ==>
      FaultSince(MotorAt(b, c, k), MotorAt(a, c, k).reboots)
  }

  lemma MoveKeepsFaults(w: World, m: Move, cfg: Config)
    requires AllNoReset(w)
    ensures AllNoReset(Apply(w, m, cfg)) && FaultsKept(w.master, Apply(w, m, cfg).master)
  {
    hide Happen, AsksNoReset, Mail, Swap, ReadHost, Grows;
    MovesKeepEverywhere(AsksNoReset, w, m, cfg);
    MoveGrows(w, m, cfg);
    var s := w.master;
    var t := Apply(w, m, cfg).master;
    forall c: nat, k: nat | Exists(s, c, k) && Exists(t, c, k) && MotorAt(s, c, k).driveState.Fault?
      ensures FaultSince(MotorAt(t, c, k), MotorAt(s, c, k).reboots)
    {
      var reboots := MotorAt(s, c, k).reboots;
      match m
      case MasterCycle(count) =>
        var p := CycleTakesMail(w, count, cfg);
        var arrivals := w.wire[..Min(count, |w.wire|)];
        CycleHappens(s, CycleWith(arrivals), cfg);
        CycleKeepsFault(s, arrivals, cfg, c, k, reboots);
      case Between(e) =>
        if !e.CycleWith? {
          EventKeepsFault(s, e, cfg, c, k, reboots);
        }
      case _ =>
    }
  }

  /** Every fault there was in w, or was reported since, is still there in v. */
  ghost predicate FaultsSince(w: World, v: World) {
    && FaultsKept(w.master, v.master)
    && forall i :: |w.tele| <= i < |v.tele| ==> FaultsKept(v.tele[i], v.master)
  }

  lemma FaultsSinceChain(w: World, v: World, u: World)
    requires FaultsSince(w, v) && FaultsSince(v, u) && v.tele <= u.tele
    ensures FaultsSince(w, u)
  {
    hide FaultsKept;
    FaultsChain(w.master, v.master, u.master);
    forall i | |w.tele| <= i < |u.tele|
      ensures FaultsKept(u.tele[i], u.master)
    {
      if i < |v.tele| {
        assert u.tele[i] == v.tele[i];
        FaultsChain(v.tele[i], v.master, u.master);
      }
    }
  }

  lemma FaultsSinceSelf(w: World)
    ensures FaultsSince(w, w)
  {
  }

  lemma MoveFaultsSince(w: World, m: Move, cfg: Config)
    requires AllNoReset(w)
    ensures AllNoReset(Apply(w, m, cfg)) && FaultsSince(w, Apply(w, m, cfg))
    ensures w.tele <= Apply(w, m, cfg).tele
  {
    hide Happen, FaultsKept, AllNoReset;
    MoveKeepsFaults(w, m, cfg);
    var v := Apply(w, m, cfg);
    FaultsChain(v.master, v.master, v.master);
  }

  lemma {:induction false} FaultsAfter(w: World, moves: seq<Move>, cfg: Config)
    requires AllNoReset(w)
    ensures AllNoReset(After(w, moves, cfg)) && FaultsSince(w, After(w, moves, cfg))
    ensures w.tele <= After(w, moves, cfg).tele
    decreases |moves|
  {
    hide AllNoReset, Apply, FaultsSince;
    if moves == [] {
      FaultsSinceSelf(w);
    } else {
      var v := Apply(w, moves[0], cfg);
      MoveFaultsSince(w, moves[0], cfg);
      FaultsAfter(v, moves[1..], cfg);
      FaultsSinceChain(w, v, After(v, moves[1..], cfg));
    }
  }

  lemma FaultsChain(a: State, b: State, c: State)
    ensures FaultsKept(a, a)
    ensures FaultsKept(a, b) && FaultsKept(b, c) ==> FaultsKept(a, c)
  {
    if FaultsKept(a, b) && FaultsKept(b, c) {
      GrowsChain(a.chains, b.chains, c.chains);
      forall i: nat, k: nat | Exists(a, i, k) && Exists(c, i, k) && MotorAt(a, i, k).driveState.Fault?
        ensures FaultSince(MotorAt(c, i, k), MotorAt(a, i, k).reboots)
      {
        assert Exists(b, i, k);
        assert CountsGrow(a.chains[i].motors[k], b.chains[i].motors[k]);
        assert CountsGrow(b.chains[i].motors[k], c.chains[i].motors[k]);
      }
    }
  }
}
