/** The lock-free single-producer single-consumer latest-value buffer, as the interleaving of its
    two threads: one step is one word copied, one atomic access, or one index update. */
module LatestValue {
  import opened Wrappers

  type Frame = seq<int>

  datatype Operation = Read | Reset

  datatype Producer =
    | Idle
    | Writing(frame: Frame, done: nat)  // copying into slots_[back_]
    | HandedOff(previous: nat)          // the exchange's result, not yet in back_

  datatype Consumer =
    | Idle
    | Checking(op: Operation)                 // about to load middle_
    | Taking(op: Operation)                   // saw kFresh, about to exchange
    | Took(op: Operation, previous: nat)      // the exchange's result, not yet in front_
    | Testing                                 // about to test slots_[front_].valid
    | Copying(copied: Frame)                  // copying out of slots_[front_]
    | Clearing(done: nat)                     // reset() overwriting slots_[front_]

  /** One finished read(), with what the history says of it. `result` is what it returned; `seen`
      counts the hand-offs whose frames it had taken or passed over, `checked` those made before
      its fresh check, `floor` those discarded by earlier resets. */
  datatype ReadRecord = ReadRecord(result: Option<Frame>, seen: nat, checked: nat, floor: nat)

  datatype State = State(
    width: nat,     // words in a frame
    flagAt: nat,    // which of them is `valid`
    slots: seq<Frame>, middle: nat, isFresh: bool, back: nat, front: nat,
    producer: Producer, consumer: Consumer,
    // History: nothing below is read by either thread.
    published: seq<Frame>,      // in hand-off order
    seen: nat, checked: nat, floor: nat,
    returned: seq<ReadRecord>, resets: seq<nat>)  // per finished reset(): hand-offs before its check
  {
    predicate ValidFrame(f: Frame) {
      flagAt < |f| && f[flagAt] != 0
    }

    /** The slot each side may touch. */
    function ProducerSlot(): nat {
      if producer.HandedOff? then producer.previous else back
    }

    function ConsumerSlot(): nat {
      if consumer.Took? then consumer.previous else front
    }
  }

  function Blank(width: nat): (f: Frame)
    ensures |f| == width && forall i :: 0 <= i < width ==> f[i] == 0
  {
    seq(width, _ => 0)
  }

  function Initial(width: nat, flagAt: nat): State {
    var blank := Blank(width);
    State(width, flagAt, [blank, blank, blank], 0, false, 1, 2, Producer.Idle, Consumer.Idle,
          [], 0, 0, 0, [], [])
  }

  // ---- The steps ----

  datatype Step =
    | StartPublish(frame: Frame) | WriteWord | HandOff | AdoptBack
    | Start(op: Operation) | CheckFresh | TakeMiddle | AdoptFront | TestValid | CopyWord | Return
    | ClearWord | EndReset

  predicate Enabled(s: State, step: Step) {
    match step
    case StartPublish(frame) => s.producer.Idle? && |frame| == s.width
    case WriteWord => s.producer.Writing? && s.producer.done < |s.producer.frame|
    case HandOff => s.producer.Writing? && s.producer.done == |s.producer.frame|
    case AdoptBack => s.producer.HandedOff?
    case Start(_) => s.consumer.Idle?
    case CheckFresh => s.consumer.Checking?
    case TakeMiddle => s.consumer.Taking?
    case AdoptFront => s.consumer.Took?
    case TestValid => s.consumer.Testing?
    case CopyWord => s.consumer.Copying? && |s.consumer.copied| < s.width
    case Return => s.consumer.Copying? && |s.consumer.copied| == s.width
    case ClearWord => s.consumer.Clearing? && s.consumer.done < s.width
    case EndReset => s.consumer.Clearing? && s.consumer.done == s.width
  }

  /** Out-of-range accesses, which the invariant rules out, read zero and write nothing. */
  function WordAt(slots: seq<Frame>, slot: nat, k: nat): int {
    if slot < |slots| && k < |slots[slot]| then slots[slot][k] else 0
  }

  function Stored(slots: seq<Frame>, slot: nat, k: nat, word: int): seq<Frame> {
    if slot < |slots| && k < |slots[slot]| then slots[slot := slots[slot][k := word]] else slots
  }

  function AfterTake(op: Operation): Consumer {
    match op
    case Read => Testing
    case Reset => Clearing(0)
  }

  function Finished(s: State, result: Option<Frame>): State {
    s.(consumer := Consumer.Idle,
       returned := s.returned + [ReadRecord(result, s.seen, s.checked, s.floor)])
  }

  /** The buffer after one step of either thread. */
  function Next(s: State, step: Step): State
    requires Enabled(s, step)
  {
    match step
    case StartPublish(frame) => s.(producer := Writing(frame, 0))
    case WriteWord =>
      var k := s.producer.done;
      s.(slots := Stored(s.slots, s.back, k, s.producer.frame[k]),
         producer := Writing(s.producer.frame, k + 1))
    case HandOff =>
      s.(middle := s.back, isFresh := true, producer := HandedOff(s.middle),
         published := s.published + [s.producer.frame])
    case AdoptBack => s.(back := s.producer.previous, producer := Producer.Idle)
    case Start(op) => s.(consumer := Checking(op))
    case CheckFresh =>
      s.(checked := |s.published|,
         consumer := if s.isFresh then Taking(s.consumer.op) else AfterTake(s.consumer.op))
    case TakeMiddle =>
      s.(middle := s.front, isFresh := false, consumer := Took(s.consumer.op, s.middle),
         seen := |s.published|)
    case AdoptFront =>
      s.(front := s.consumer.previous, consumer := AfterTake(s.consumer.op))
    case TestValid =>
      if WordAt(s.slots, s.front, s.flagAt) != 0 then s.(consumer := Copying([])) else Finished(s, None)
    case CopyWord =>
      s.(consumer := Copying(s.consumer.copied + [WordAt(s.slots, s.front, |s.consumer.copied|)]))
    case Return => Finished(s, Some(s.consumer.copied))
    case ClearWord =>
      var k := s.consumer.done;
      s.(slots := Stored(s.slots, s.front, k, 0), consumer := Clearing(k + 1))
    case EndReset =>
      s.(consumer := Consumer.Idle, floor := s.seen, resets := s.resets + [s.checked])
  }

  // ---- The invariant ----

  predicate Shape(s: State) {
    && s.flagAt < s.width && |s.slots| == 3
    && (forall i :: 0 <= i < 3 ==> |s.slots[i]| == s.width)
    && (forall i :: 0 <= i < |s.published| ==> |s.published[i]| == s.width)
  }

  /** The three slots always have three owners, counting an index still in a local. */
  predicate Partitioned(s: State) {
    && s.back < 3 && s.front < 3 && s.middle < 3
    && s.ProducerSlot() < 3 && s.ConsumerSlot() < 3
    && s.ProducerSlot() != s.ConsumerSlot()
    && s.middle != s.ProducerSlot() && s.middle != s.ConsumerSlot()
  }

  predicate ProducerInv(s: State)
    requires Shape(s) && Partitioned(s)
  {
    s.producer.Writing? ==>
      && |s.producer.frame| == s.width && s.producer.done <= s.width
      && s.slots[s.back][..s.producer.done] == s.producer.frame[..s.producer.done]
  }

  /** What the consumer's slot holds: the newest frame it has seen, or nothing since a reset. */
  function Current(s: State): (f: Frame)
    requires Shape(s)
    ensures |f| == s.width
  {
    if s.floor < s.seen <= |s.published| then s.published[s.seen - 1] else Blank(s.width)
  }

  predicate ConsumerInv(s: State)
    requires Shape(s) && Partitioned(s)
  {
    && s.floor <= s.seen <= |s.published|
    && (if s.isFresh then
          s.seen < |s.published| && s.slots[s.middle] == s.published[|s.published| - 1]
        else s.seen == |s.published|)
    && (s.consumer.Taking? ==> s.isFresh && s.checked <= |s.published|)
    && (s.consumer.Took? || s.consumer.Testing? || s.consumer.Copying? || s.consumer.Clearing? ==>
      s.checked <= s.seen)
    && (if s.consumer.Clearing? then
          && s.consumer.done <= s.width
          && s.slots[s.front][..s.consumer.done] == Blank(s.consumer.done)
        else s.slots[s.ConsumerSlot()] == Current(s))
    && (s.consumer.Copying? ==>
      && |s.consumer.copied| <= s.width
      && s.floor < s.seen && s.ValidFrame(Current(s))
      && s.consumer.copied == Current(s)[..|s.consumer.copied|])
  }

  /** What a finished read returned. */
  predicate RecordInv(s: State, r: ReadRecord) {
    && r.checked <= r.seen <= |s.published| && r.floor <= r.seen
    && (r.result.Some? ==>
      r.floor < r.seen && r.result.value == s.published[r.seen - 1] && s.ValidFrame(r.result.value))
    && (r.result.None? ==> r.floor == r.seen || !s.ValidFrame(s.published[r.seen - 1]))
  }

  predicate HistoryInv(s: State) {
    && (forall r :: r in s.returned ==> RecordInv(s, r) && r.seen <= s.seen && r.floor <= s.floor)
    && (forall i, j :: 0 <= i < j < |s.returned| ==>
      s.returned[i].seen <= s.returned[j].seen && s.returned[i].floor <= s.returned[j].floor)
    && (forall c :: c in s.resets ==> c <= s.floor)
  }

  predicate Inv(s: State) {
    Shape(s) && Partitioned(s) && ProducerInv(s) && ConsumerInv(s) && HistoryInv(s)
  }

  lemma InitialInv(width: nat, flagAt: nat)
    requires flagAt < width
    ensures Inv(Initial(width, flagAt))
  {
  }

  predicate IsProducerStep(step: Step) {
    step.StartPublish? || step.WriteWord? || step.HandOff? || step.AdoptBack?
  }

  lemma ProducerStepKeepsInv(s: State, step: Step)
    requires Inv(s) && Enabled(s, step) && IsProducerStep(step)
    ensures Inv(Next(s, step))
  {
    hide HistoryInv;
    HistoryKept(s, step);
  }

  lemma TakeStepKeepsInv(s: State, step: Step)
    requires Inv(s) && Enabled(s, step)
    requires step.Start? || step.CheckFresh? || step.TakeMiddle? || step.AdoptFront?
    ensures Inv(Next(s, step))
  {
    hide HistoryInv;
    HistoryKept(s, step);
  }

  lemma ReadStepKeepsInv(s: State, step: Step)
    requires Inv(s) && Enabled(s, step) && (step.TestValid? || step.Return?)
    ensures Inv(Next(s, step))
  {
    hide HistoryInv, RecordInv;
    HistoryKept(s, step);
  }

  lemma CopyStepKeepsInv(s: State)
    requires Inv(s) && Enabled(s, CopyWord)
    ensures Inv(Next(s, CopyWord))
  {
    hide HistoryInv, RecordInv;
    HistoryKept(s, CopyWord);
    var k := |s.consumer.copied|;
    assert Current(s)[..k + 1] == Current(s)[..k] + [Current(s)[k]];
  }

  lemma ResetStepKeepsInv(s: State, step: Step)
    requires Inv(s) && Enabled(s, step)
    requires step.ClearWord? || step.EndReset?
    ensures Inv(Next(s, step))
  {
    hide HistoryInv;
    HistoryKept(s, step);
    var k := s.consumer.done;
    if step.EndReset? {
      assert s.slots[s.front][..k] == s.slots[s.front];
    } else {
      assert Next(s, step).slots[s.front][..k + 1] == s.slots[s.front][..k] + [0];
      assert Blank(k + 1) == Blank(k) + [0];
    }
  }

  /** Every step of either thread keeps the invariant. */
  lemma StepKeepsInv(s: State, step: Step)
    requires Inv(s) && Enabled(s, step)
    ensures Inv(Next(s, step))
    ensures s.returned <= Next(s, step).returned
    ensures s.floor <= Next(s, step).floor
    ensures |s.returned| < |Next(s, step).returned| ==>
      Next(s, step).returned[|s.returned|].floor == s.floor
  {
    hide HistoryInv, ProducerInv;
    if IsProducerStep(step) {
      ProducerStepKeepsInv(s, step);
    } else if step.ClearWord? || step.EndReset? {
      ResetStepKeepsInv(s, step);
    } else if step.TestValid? || step.Return? {
      ReadStepKeepsInv(s, step);
    } else if step.CopyWord? {
      CopyStepKeepsInv(s);
    } else {
      TakeStepKeepsInv(s, step);
    }
  }

  lemma HistoryGrows(s: State, t: State)
    requires HistoryInv(s) && s.published <= t.published && s.flagAt == t.flagAt
    requires s.seen <= t.seen && s.floor <= t.floor && s.returned == t.returned
    requires t.resets == s.resets || (t.resets == s.resets + [s.checked] && s.checked <= t.floor)
    ensures HistoryInv(t)
  {
    forall r | r in t.returned
      ensures RecordInv(t, r)
    {
      assert RecordInv(s, r);
    }
  }

  lemma HistoryReturns(s: State, result: Option<Frame>)
    requires HistoryInv(s) && RecordInv(s, ReadRecord(result, s.seen, s.checked, s.floor))
    ensures HistoryInv(Finished(s, result))
  {
    var t := Finished(s, result);
    forall r | r in t.returned
      ensures RecordInv(t, r) && r.seen <= t.seen && r.floor <= t.floor
    {
      assert RecordInv(s, r);
    }
    assert forall r :: r in s.returned ==> r.seen <= s.seen && r.floor <= s.floor;
  }

  lemma HistoryKept(s: State, step: Step)
    requires Inv(s) && Enabled(s, step)
    ensures HistoryInv(Next(s, step))
  {
    hide HistoryInv;
    if step.Return? {
      HistoryReturns(s, Some(s.consumer.copied));
    } else if step.TestValid? && !s.ValidFrame(s.slots[s.front]) {
      HistoryReturns(s, None);
    } else {
      HistoryGrows(s, Next(s, step));
    }
  }

  // ---- Every interleaving ----

  ghost predicate Run(s: State, steps: seq<Step>, t: State)
    decreases |steps|
  {
    if steps == [] then s == t
    else Enabled(s, steps[0]) && Run(Next(s, steps[0]), steps[1..], t)
  }

  lemma {:induction false} RunKeepsInv(s: State, steps: seq<Step>, t: State)
    requires Inv(s) && Run(s, steps, t)
    ensures Inv(t)
    decreases |steps|
  {
    hide Inv, Enabled;
    if steps == [] {
    } else {
      StepKeepsInv(s, steps[0]);
      RunKeepsInv(Next(s, steps[0]), steps[1..], t);
    }
  }

  ghost predicate Reachable(t: State) {
    exists width: nat, flagAt: nat, steps: seq<Step> ::
      flagAt < width && Run(Initial(width, flagAt), steps, t)
  }

  lemma ReachableInv(t: State)
    requires Reachable(t)
    ensures Inv(t)
  {
    var width: nat, flagAt: nat, steps: seq<Step> :|
      flagAt < width && Run(Initial(width, flagAt), steps, t);
    InitialInv(width, flagAt);
    RunKeepsInv(Initial(width, flagAt), steps, t);
  }

  /** Nothing is torn: neither side ever writes or reads a slot another owner holds, and every
      frame a read returned is, word for word, one frame handed off whole. */
  lemma NoTornReads(t: State, r: ReadRecord)
    requires Reachable(t) && r in t.returned && r.result.Some?
    ensures Partitioned(t)
    ensures 0 < r.seen <= |t.published| && r.result.value == t.published[r.seen - 1]
    ensures t.ValidFrame(r.result.value)
  {
    ReachableInv(t);
    assert RecordInv(t, r);
  }

  /** A read is at least as new as the last hand-off before its fresh check, and it comes back
      empty only if that newest frame is itself not valid or was discarded by a reset. */
  lemma ReadsAreCurrent(t: State, r: ReadRecord)
    requires Reachable(t) && r in t.returned
    ensures r.checked <= r.seen <= |t.published| && r.floor <= r.seen
    ensures r.result.None? <==> r.seen == r.floor || !t.ValidFrame(t.published[r.seen - 1])
  {
    ReachableInv(t);
    assert RecordInv(t, r);
  }

  /** Reads never go backwards, and two reads that saw the same hand-offs, with no reset between,
      return the same thing. */
  lemma ReadsAreMonotone(t: State, i: nat, j: nat)
    requires Reachable(t) && i < j < |t.returned|
    ensures t.returned[i].seen <= t.returned[j].seen
    ensures t.returned[i].seen == t.returned[j].seen && t.returned[i].floor == t.returned[j].floor
      ==> t.returned[i].result == t.returned[j].result
  {
    ReachableInv(t);
    assert RecordInv(t, t.returned[i]) && RecordInv(t, t.returned[j]);
  }

  /** After a reset, a read never returns a frame handed off before that reset's fresh check:
      `mid` is any moment with the reset done, and `t` any later one. */
  lemma ResetDiscards(mid: State, steps: seq<Step>, t: State, c: nat, k: nat)
    requires Reachable(mid) && c in mid.resets && Run(mid, steps, t)
    requires |mid.returned| <= k < |t.returned| && t.returned[k].result.Some?
    ensures c < t.returned[k].seen
  {
    ReachableInv(mid);
    LaterReads(mid, steps, t, k);
    RunKeepsInv(mid, steps, t);
    assert RecordInv(t, t.returned[k]);
  }

  lemma OneReadPerStep(s: State, step: Step)
    requires Enabled(s, step)
    ensures |Next(s, step).returned| <= |s.returned| + 1
  {
  }

  lemma {:induction false} LaterReads(s: State, steps: seq<Step>, t: State, k: nat)
    requires Inv(s) && Run(s, steps, t) && |s.returned| <= k < |t.returned|
    ensures s.floor <= t.returned[k].floor
    decreases |steps|
  {
    hide Inv, Enabled, Next;
    if steps == [] {
    } else {
      var n := Next(s, steps[0]);
      StepKeepsInv(s, steps[0]);
      if k < |n.returned| {
        OneReadPerStep(s, steps[0]);
        ReturnedKept(n, steps[1..], t);
      } else {
        LaterReads(n, steps[1..], t, k);
      }
    }
  }

  lemma {:induction false} ReturnedKept(s: State, steps: seq<Step>, t: State)
    requires Inv(s) && Run(s, steps, t)
    ensures s.returned <= t.returned
    decreases |steps|
  {
    hide Inv, Enabled, Next;
    if steps == [] {
    } else {
      var n := Next(s, steps[0]);
      StepKeepsInv(s, steps[0]);
      ReturnedKept(n, steps[1..], t);
    }
  }

  // ---- The buffer itself, one call at a time ----

  lemma {:induction false} RunSnoc(s: State, steps: seq<Step>, t: State, step: Step)
    requires Run(s, steps, t) && Enabled(t, step)
    ensures Run(s, steps + [step], Next(t, step))
    decreases |steps|
  {
    hide Enabled, Next;
    if steps == [] {
      assert [step][1..] == [];
    } else {
      assert (steps + [step])[1..] == steps[1..] + [step];
      RunSnoc(Next(s, steps[0]), steps[1..], t, step);
    }
  }

  lemma {:induction false} RunAppend(s: State, first: seq<Step>, m: State, second: seq<Step>, t: State)
    requires Run(s, first, m) && Run(m, second, t)
    ensures Run(s, first + second, t)
    decreases |first|
  {
    hide Enabled, Next;
    if first == [] {
      assert first + second == second;
    } else {
      assert (first + second)[1..] == first[1..] + second;
      RunAppend(Next(s, first[0]), first[1..], m, second, t);
    }
  }

  lemma ReachableByRun(s: State, steps: seq<Step>, t: State)
    requires Reachable(s) && Run(s, steps, t)
    ensures Reachable(t)
  {
    hide Initial;
    var width: nat, flagAt: nat, first: seq<Step> :|
      flagAt < width && Run(Initial(width, flagAt), first, s);
    RunAppend(Initial(width, flagAt), first, s, steps, t);
  }

  /** The single latest value: the last frame handed off, or nothing since the last reset. */
  function Register(s: State): Frame {
    if s.floor < |s.published| then s.published[|s.published| - 1] else Blank(s.width)
  }

  /** What the consumer's slot holds once it has taken what is fresh. */
  lemma FrontHoldsRegister(s: State)
    requires Inv(s) && !s.isFresh && (s.consumer.Testing? || s.consumer.Idle?)
    ensures s.front < 3 && s.slots[s.front] == Register(s) && |Register(s)| == s.width
  {
  }

  /** The buffer's own calls, word by word. Each is a run of the steps above with the other thread idle,
      so whatever is proved of every interleaving holds of these calls too. */
  class LatestValueBuffer {
    const width: nat
    const flagAt: nat
    var slots: seq<Frame>
    var middle: nat
    var isFresh: bool
    var back: nat
    var front: nat
    ghost var machine: State

    /** The fields are the machine's. */
    ghost predicate Mirrors()
      reads this
    {
      && machine.width == width && machine.flagAt == flagAt
      && slots == machine.slots && middle == machine.middle && isFresh == machine.isFresh
      && back == machine.back && front == machine.front
    }

    ghost predicate Valid()
      reads this
    {
      && Mirrors() && Reachable(machine)
      && machine.producer == Producer.Idle && machine.consumer == Consumer.Idle
    }

    constructor (width: nat, flagAt: nat)
      requires flagAt < width
      ensures Valid() && machine == Initial(width, flagAt)
    {
      this.width, this.flagAt := width, flagAt;
      slots := [Blank(width), Blank(width), Blank(width)];
      middle, isFresh, back, front := 0, false, 1, 2;
      machine := Initial(width, flagAt);
      new;
      assert Run(Initial(width, flagAt), [], machine);
    }

    /** The machine takes a step. */
    ghost method Take(start: State, steps: seq<Step>, step: Step) returns (longer: seq<Step>)
      requires Run(start, steps, machine) && Enabled(machine, step) && Inv(machine)
      modifies this`machine
      ensures machine == Next(old(machine), step) && Inv(machine)
      ensures longer == steps + [step] && Run(start, longer, machine)
    {
      hide Inv, Enabled, Next;
      RunSnoc(start, steps, machine, step);
      StepKeepsInv(machine, step);
      longer := steps + [step];
      machine := Next(machine, step);
    }

    /** The producer's copy into its slot. */
    method WriteFrame(frame: Frame, ghost start: State, ghost before: seq<Step>)
      returns (ghost steps: seq<Step>)
      requires Mirrors() && Inv(machine) && Run(start, before, machine) && |frame| == width
      requires machine.producer == Writing(frame, 0)
      modifies this`slots, this`machine
      ensures Mirrors() && Inv(machine) && Run(start, steps, machine)
      ensures machine.producer == Writing(frame, width) && machine.consumer == old(machine).consumer
      ensures SameHistory(old(machine), machine)
    {
      hide Inv, Run;
      steps := before;
      for k := 0 to width
        invariant Mirrors() && Inv(machine) && Run(start, steps, machine)
        invariant machine.producer == Writing(frame, k) && machine.consumer == old(machine).consumer
        invariant SameHistory(old(machine), machine) && machine.back == old(machine).back
      {
        InvShape(machine);
        slots := slots[back := slots[back][k := frame[k]]];
        steps := Take(start, steps, WriteWord);
      }
    }

    method Publish(frame: Frame) returns (ghost steps: seq<Step>)
      requires Valid() && |frame| == width
      modifies this
      ensures Valid() && Run(old(machine), steps, machine)
      ensures machine.published == old(machine).published + [frame]
      ensures machine.returned == old(machine).returned && machine.floor == old(machine).floor
      ensures Register(machine) == frame
    {
      hide Inv, Reachable, Run;
      ghost var start := machine;
      ReachableInv(machine);
      InvShape(machine);
      NoSteps(machine);
      steps := Take(start, [], StartPublish(frame));
      steps := WriteFrame(frame, start, steps);
      var previous := middle;
      middle, isFresh := back, true;
      steps := Take(start, steps, HandOff);
      back := previous;
      steps := Take(start, steps, AdoptBack);
      ReachableByRun(start, steps, machine);
    }

    /** Swaps the fresh middle slot into the front, if there is one. */
    method TakeLatest(op: Operation, ghost start: State, ghost before: seq<Step>)
      returns (ghost steps: seq<Step>)
      requires Mirrors() && Inv(machine) && Run(start, before, machine)
      requires machine.consumer == Checking(op)
      modifies this`middle, this`isFresh, this`front, this`machine
      ensures Mirrors() && Inv(machine) && Run(start, steps, machine) && !isFresh
      ensures machine.consumer == AfterTake(op) && machine.producer == old(machine).producer
      ensures machine.published == old(machine).published && machine.returned == old(machine).returned
      ensures machine.floor == old(machine).floor && machine.resets == old(machine).resets
      ensures machine.checked == |machine.published|
    {
      hide Inv, Run;
      var taking := isFresh;
      steps := Take(start, before, CheckFresh);
      if taking {
        var previous := middle;
        middle, isFresh := front, false;
        steps := Take(start, steps, TakeMiddle);
        front := previous;
        steps := Take(start, steps, AdoptFront);
      }
    }

    /** The consumer's copy out of its slot. */
    method CopyOut(ghost start: State, ghost before: seq<Step>)
      returns (copied: Frame, ghost steps: seq<Step>)
      requires Mirrors() && Inv(machine) && Run(start, before, machine)
      requires machine.consumer == Copying([])
      modifies this`machine
      ensures Mirrors() && Inv(machine) && Run(start, steps, machine)
      ensures machine.consumer == Copying(copied) && machine.producer == old(machine).producer
      ensures front < |slots| && copied == slots[front] && |copied| == width
      ensures SameHistory(old(machine), machine)
    {
      hide Inv, Run;
      InvShape(machine);
      steps := before;
      copied := [];
      for k := 0 to width
        invariant Mirrors() && Inv(machine) && Run(start, steps, machine)
        invariant machine.consumer == Copying(copied) && machine.producer == old(machine).producer
        invariant copied == slots[front][..k] && SameHistory(old(machine), machine)
      {
        steps := Take(start, steps, CopyWord);
        copied := copied + [slots[front][k]];
      }
    }

    method Read() returns (r: Option<Frame>, ghost steps: seq<Step>)
      requires Valid()
      modifies this`middle, this`isFresh, this`front, this`machine
      ensures Valid() && Run(old(machine), steps, machine)
      ensures machine.published == old(machine).published && machine.floor == old(machine).floor
      ensures |machine.returned| == |old(machine).returned| + 1
      ensures machine.returned[|old(machine).returned|].result == r
      ensures var latest := Register(old(machine));
        r == if flagAt < |latest| && latest[flagAt] != 0 then Some(latest) else None
    {
      hide Inv, Reachable, Run;
      ghost var begin := machine;
      ReachableInv(machine);
      NoSteps(machine);
      steps := Take(begin, [], Start(Operation.Read));
      steps := TakeLatest(Operation.Read, begin, steps);
      FrontHoldsRegister(machine);
      InvShape(machine);
      steps := Take(begin, steps, TestValid);
      if slots[front][flagAt] == 0 {
        ReachableByRun(begin, steps, machine);
        return None, steps;
      }
      var copied: Frame;
      copied, steps := CopyOut(begin, steps);
      steps := Take(begin, steps, Return);
      ReachableByRun(begin, steps, machine);
      return Some(copied), steps;
    }

    method Reset() returns (ghost steps: seq<Step>)
      requires Valid()
      modifies this
      ensures Valid() && Run(old(machine), steps, machine)
      ensures machine.published == old(machine).published && machine.returned == old(machine).returned
      ensures machine.resets == old(machine).resets + [|machine.published|]
      ensures Register(machine) == Blank(width)
    {
      hide Inv, Reachable, Run;
      ghost var begin := machine;
      ReachableInv(machine);
      NoSteps(machine);
      steps := Take(begin, [], Start(Operation.Reset));
      steps := TakeLatest(Operation.Reset, begin, steps);
      ghost var taken := machine;
      for k := 0 to width
        invariant Mirrors() && Inv(machine) && Run(begin, steps, machine) && !isFresh
        invariant machine.consumer == Clearing(k) && machine.producer == begin.producer
        invariant SameHistory(taken, machine)
      {
        InvShape(machine);
        slots := slots[front := slots[front][k := 0]];
        steps := Take(begin, steps, ClearWord);
      }
      InvShape(machine);
      steps := Take(begin, steps, EndReset);
      ReachableByRun(begin, steps, machine);
    }
  }

  /** No hand-off, finished call, or fresh check between the two. */
  predicate SameHistory(s: State, t: State) {
    && s.published == t.published && s.returned == t.returned && s.resets == t.resets
    && s.floor == t.floor && s.seen == t.seen && s.checked == t.checked
  }

  lemma NoSteps(s: State)
    ensures Run(s, [], s)
  {
  }

  lemma InvShape(s: State)
    requires Inv(s)
    ensures Shape(s) && Partitioned(s) && s.floor <= s.seen <= |s.published|
    ensures !s.isFresh ==> s.seen == |s.published|
  {
  }
}
