/** Who owns the five-field tuple of each joint, and whose command may be sent as a result. */
module TupleOwnership {
  import opened Wrappers
  import opened BatchTypes

  const POSITION := "position"
  const VELOCITY := "velocity"
  const EFFORT := "effort"
  const STIFFNESS := "stiffness"
  const DAMPING := "damping"
  const MIT_FIELDS := [POSITION, VELOCITY, EFFORT, STIFFNESS, DAMPING]
  const FIELD_COUNT := 5

  type JointMask = set<nat>

  ghost predicate AllJoints(owned: JointMask, jointCount: nat) {
    forall j: nat :: j in owned <==> j < jointCount
  }

  // ---- Names ----

  /** Where the last slash is. */
  function LastSlash(name: string): (r: Option<nat>)
    ensures r.Some? ==> r.value < |name| && name[r.value] == '/' && '/' !in name[r.value + 1..]
    ensures r.None? ==> '/' !in name
  {
    if name == "" then None
    else if name[|name| - 1] == '/' then Some(|name| - 1)
    else
      var r := LastSlash(name[..|name| - 1]);
      assert name == name[..|name| - 1] + [name[|name| - 1]];
      assert r.Some? ==>
        name[r.value + 1..] == name[..|name| - 1][r.value + 1..] + [name[|name| - 1]];
      r
  }

  /** The first index of a name in a list. */
  function IndexIn(name: string, names: seq<string>): (r: Option<nat>)
    ensures r.Some? ==> r.value < |names| && names[r.value] == name && name !in names[..r.value]
    ensures r.None? ==> name !in names
  {
    if names == [] then None
    else if names[0] == name then Some(0)
    else
      var r := IndexIn(name, names[1..]);
      assert names == [names[0]] + names[1..];
      assert r.Some? ==> names[..r.value + 1] == [names[0]] + names[1..][..r.value];
      if r.Some? then Some(r.value + 1) else None
  }

  /** The (joint, field) a name `<joint>/<field>` stands for. */
  function Named(name: string, jointNames: seq<string>): (r: Option<(nat, nat)>)
    ensures r.Some? ==> r.value.0 < |jointNames| && r.value.0 < MAX_BATCH_JOINTS && r.value.1 < FIELD_COUNT
  {
    match LastSlash(name)
    case None => None
    case Some(slash) =>
      var field := IndexIn(name[slash + 1..], MIT_FIELDS);
      var joint := IndexIn(name[..slash], jointNames);
      if field.None? || joint.None? then None
      else if joint.value >= MAX_BATCH_JOINTS then None
      else Some((joint.value, field.value))
  }

  /** No field name holds a slash, so every joint, whatever its own name, can be named. */
  lemma EveryFieldHasAName(jointNames: seq<string>, j: nat, f: nat)
    requires j < |jointNames| && j < MAX_BATCH_JOINTS && f < FIELD_COUNT
    requires jointNames[j] !in jointNames[..j]
    ensures Named(jointNames[j] + "/" + MIT_FIELDS[f], jointNames) == Some((j, f))
    ensures MIT_FIELDS == ["position", "velocity", "effort", "stiffness", "damping"]
  {
    var name := jointNames[j] + "/" + MIT_FIELDS[f];
    assert '/' !in MIT_FIELDS[f];
    assert name[|jointNames[j]|] == '/' && name[|jointNames[j]| + 1..] == MIT_FIELDS[f];
    SlashIsLast(name, |jointNames[j]|);
    assert name[..|jointNames[j]|] == jointNames[j];
    FieldsDiffer(f);
  }

  lemma {:induction false} SlashIsLast(name: string, k: nat)
    requires k < |name| && name[k] == '/' && '/' !in name[k + 1..]
    ensures LastSlash(name) == Some(k)
  {
    if k == |name| - 1 {
    } else {
      assert name[k + 1..][|name| - 1 - (k + 1)] == name[|name| - 1];
      assert name[..|name| - 1][k + 1..] <= name[k + 1..];
      SlashIsLast(name[..|name| - 1], k);
    }
  }

  lemma FieldsDiffer(f: nat)
    requires f < FIELD_COUNT
    ensures IndexIn(MIT_FIELDS[f], MIT_FIELDS) == Some(f)
  {
    assert |POSITION| == 8 && |VELOCITY| == 8 && |EFFORT| == 6 && |STIFFNESS| == 9 && |DAMPING| == 7;
    assert POSITION[0] == 'p' && VELOCITY[0] == 'v';
    var r := IndexIn(MIT_FIELDS[f], MIT_FIELDS);
    assert MIT_FIELDS[f] in MIT_FIELDS;
  }

  // ---- Whole tuples ----

  predicate AllNamed(interfaces: seq<string>, jointNames: seq<string>) {
    forall i :: 0 <= i < |interfaces| ==> Named(interfaces[i], jointNames).Some?
  }

  predicate NamesField(interfaces: seq<string>, jointNames: seq<string>, j: nat, f: nat) {
    exists i :: 0 <= i < |interfaces| && Named(interfaces[i], jointNames) == Some((j, f))
  }

  predicate NamesJoint(interfaces: seq<string>, jointNames: seq<string>, j: nat) {
    exists f :: 0 <= f < FIELD_COUNT && NamesField(interfaces, jointNames, j, f)
  }

  predicate NamesWhole(interfaces: seq<string>, jointNames: seq<string>, j: nat) {
    forall f :: 0 <= f < FIELD_COUNT ==> NamesField(interfaces, jointNames, j, f)
  }

  /** Every name stands for a field of a joint, and every joint named is named with all five. */
  predicate WholeTuples(interfaces: seq<string>, jointNames: seq<string>) {
    && AllNamed(interfaces, jointNames)
    && forall j :: 0 <= j < |jointNames| && NamesJoint(interfaces, jointNames, j) ==>
      NamesWhole(interfaces, jointNames, j)
  }

  /** Which fields of each joint the first n names name. */
  ghost predicate FieldsOf(
    fields: seq<set<nat>>, interfaces: seq<string>, jointNames: seq<string>, n: nat)
    requires n <= |interfaces|
  {
    && |fields| == MAX_BATCH_JOINTS
    && forall j, f :: 0 <= j < MAX_BATCH_JOINTS ==>
      (f in fields[j] <==> 0 <= f < FIELD_COUNT && NamesField(interfaces[..n], jointNames, j, f))
  }

  lemma NextName(
    fields: seq<set<nat>>, interfaces: seq<string>, jointNames: seq<string>, n: nat, j: nat, f: nat)
    requires n < |interfaces| && FieldsOf(fields, interfaces, jointNames, n)
    requires Named(interfaces[n], jointNames) == Some((j, f))
    ensures FieldsOf(fields[j := fields[j] + {f}], interfaces, jointNames, n + 1)
  {
    hide Named;
    forall a, b: nat
      ensures NamesField(interfaces[..n + 1], jointNames, a, b) <==>
        NamesField(interfaces[..n], jointNames, a, b) || (a == j && b == f)
    {
      OneMoreName(interfaces, jointNames, n, a, b);
    }
  }

  lemma OneMoreName(interfaces: seq<string>, jointNames: seq<string>, n: nat, a: nat, b: nat)
    requires n < |interfaces|
    ensures NamesField(interfaces[..n + 1], jointNames, a, b) <==>
      NamesField(interfaces[..n], jointNames, a, b) || Named(interfaces[n], jointNames) == Some((a, b))
  {
    hide Named;
    var longer, shorter := interfaces[..n + 1], interfaces[..n];
    if NamesField(shorter, jointNames, a, b) {
      var i :| 0 <= i < |shorter| && Named(shorter[i], jointNames) == Some((a, b));
      assert longer[i] == shorter[i];
    }
    if Named(interfaces[n], jointNames) == Some((a, b)) {
      assert longer[n] == interfaces[n];
    }
    if NamesField(longer, jointNames, a, b) {
      var i :| 0 <= i < |longer| && Named(longer[i], jointNames) == Some((a, b));
      assert i < n ==> shorter[i] == longer[i];
    }
  }

  method CompleteTuples(interfaces: seq<string>, jointNames: seq<string>)
    returns (r: Option<JointMask>)
    ensures r.Some? <==> WholeTuples(interfaces, jointNames)
    ensures r.Some? ==> forall j: nat ::
      j in r.value <==> j < |jointNames| && NamesJoint(interfaces, jointNames, j)
  {
    hide Named, NamesField, FieldsOf;
    var fields: seq<set<nat>> := seq(MAX_BATCH_JOINTS, _ => {});
    NoNames(fields, interfaces, jointNames);
    for n := 0 to |interfaces|
      invariant |fields| == MAX_BATCH_JOINTS
      invariant FieldsOf(fields, interfaces, jointNames, n)
      invariant forall i :: 0 <= i < n ==> Named(interfaces[i], jointNames).Some?
    {
      var named := Named(interfaces[n], jointNames);
      if named.None? {
        return None;
      }
      NamedInRange(interfaces[n], jointNames);
      var (j, f) := named.value;
      NextName(fields, interfaces, jointNames, n, j, f);
      fields := fields[j := fields[j] + {f}];
    }
    assert interfaces[..|interfaces|] == interfaces;
    var joints: set<nat> := {};
    var count := if |jointNames| < MAX_BATCH_JOINTS then |jointNames| else MAX_BATCH_JOINTS;
    for j := 0 to count
      invariant forall i: nat :: i in joints <==> i < j && NamesJoint(interfaces, jointNames, i)
      invariant forall i :: 0 <= i < j && NamesJoint(interfaces, jointNames, i) ==>
        NamesWhole(interfaces, jointNames, i)
    {
      FieldsTell(fields, interfaces, jointNames, j);
      if fields[j] != {} {
        if fields[j] != {0, 1, 2, 3, 4} {
          return None;
        }
        joints := joints + {j};
      }
    }
    NoneBeyond(interfaces, jointNames);
    return Some(joints);
  }

  lemma NoneBeyond(interfaces: seq<string>, jointNames: seq<string>)
    ensures forall j: nat :: j >= MAX_BATCH_JOINTS ==> !NamesJoint(interfaces, jointNames, j)
  {
  }

  lemma NamedInRange(name: string, jointNames: seq<string>)
    requires Named(name, jointNames).Some?
    ensures Named(name, jointNames).value.0 < MAX_BATCH_JOINTS
  {
  }

  lemma NoNames(fields: seq<set<nat>>, interfaces: seq<string>, jointNames: seq<string>)
    requires |fields| == MAX_BATCH_JOINTS && forall j :: 0 <= j < |fields| ==> fields[j] == {}
    ensures FieldsOf(fields, interfaces, jointNames, 0)
  {
  }

  lemma FieldsTell(fields: seq<set<nat>>, interfaces: seq<string>, jointNames: seq<string>, j: nat)
    requires FieldsOf(fields, interfaces, jointNames, |interfaces|) && j < MAX_BATCH_JOINTS
    requires interfaces[..|interfaces|] == interfaces
    ensures fields[j] != {} <==> NamesJoint(interfaces, jointNames, j)
    ensures fields[j] == {0, 1, 2, 3, 4} <==> NamesWhole(interfaces, jointNames, j)
  {
    hide NamesField;
    if fields[j] != {} {
      var f :| f in fields[j];
      assert NamesField(interfaces, jointNames, j, f);
    }
    if NamesWhole(interfaces, jointNames, j) {
      assert forall f: nat :: f in fields[j] <==> f < FIELD_COUNT;
    }
    if fields[j] == {0, 1, 2, 3, 4} {
      forall f | 0 <= f < FIELD_COUNT
        ensures NamesField(interfaces, jointNames, j, f)
      {
        assert f in fields[j];
      }
    }
  }

  // ---- Claims ----

  datatype TupleClaims = TupleClaims(start: JointMask, stop: JointMask)

  method ClaimTuples(start: seq<string>, stop: seq<string>, jointNames: seq<string>)
    returns (r: Option<TupleClaims>)
    ensures r.Some? <==> WholeTuples(start, jointNames) && WholeTuples(stop, jointNames)
    ensures r.Some? ==> Claims(r.value, start, stop, jointNames)
  {
    hide WholeTuples, NamesJoint;
    var starts := CompleteTuples(start, jointNames);
    var stops := CompleteTuples(stop, jointNames);
    if starts.None? || stops.None? {
      return None;
    }
    return Some(TupleClaims(starts.value, stops.value));
  }

  /** The claims are exactly the joints the switch names. */
  ghost predicate Claims(
    c: TupleClaims, start: seq<string>, stop: seq<string>, jointNames: seq<string>)
  {
    && (forall j: nat :: j in c.start <==> j < |jointNames| && NamesJoint(start, jointNames, j))
    && (forall j: nat :: j in c.stop <==> j < |jointNames| && NamesJoint(stop, jointNames, j))
  }

  function ApplyClaims(owned: JointMask, claims: TupleClaims): JointMask {
    (owned - claims.stop) + claims.start
  }

  /** A hand-over leaves the joint owned; a release without a start does not; nothing else moves. */
  lemma OwnedAfter(owned: JointMask, claims: TupleClaims, j: nat)
    ensures j in claims.start ==> j in ApplyClaims(owned, claims)
    ensures j in claims.stop && j !in claims.start ==> j !in ApplyClaims(owned, claims)
    ensures j !in claims.start && j !in claims.stop ==>
      (j in ApplyClaims(owned, claims) <==> j in owned)
  {
  }

  // ---- Two threads switching at once ----

  /** `shared` is the atomic mask; a switch in progress holds the value it expects to replace. */
  datatype Switching = Switching(
    shared: JointMask, expected: map<nat, JointMask>, done: seq<TupleClaims>)

  datatype SwitchStep =
    | Load(thread: nat)
    | Exchange(thread: nat, claims: TupleClaims)
    | FailSpuriously(thread: nat)

  function Switch(s: Switching, step: SwitchStep): Switching {
    match step
    case Load(t) => s.(expected := s.expected[t := s.shared])
    case Exchange(t, claims) =>
      if t in s.expected && s.expected[t] == s.shared then
        s.(shared := ApplyClaims(s.expected[t], claims), expected := s.expected - {t},
           done := s.done + [claims])
      else s.(expected := s.expected[t := s.shared])
    case FailSpuriously(t) => s.(expected := s.expected[t := s.shared])
  }

  function SwitchAll(s: Switching, steps: seq<SwitchStep>): Switching
    decreases |steps|
  {
    if steps == [] then s else SwitchAll(Switch(s, steps[0]), steps[1..])
  }

  function ApplyAll(owned: JointMask, claims: seq<TupleClaims>): JointMask {
    if claims == [] then owned
    else ApplyClaims(ApplyAll(owned, claims[..|claims| - 1]), claims[|claims| - 1])
  }

  /** However the two threads' loads and exchanges interleave, the mask is what the completed
      switches make of it one after another: no claim and no release is ever lost. */
  lemma {:induction false} NoClaimIsLost(owned: JointMask, s: Switching, steps: seq<SwitchStep>)
    requires s.shared == ApplyAll(owned, s.done)
    ensures var t := SwitchAll(s, steps);
      t.shared == ApplyAll(owned, t.done) && s.done <= t.done
    decreases |steps|
  {
    if steps == [] {
    } else {
      var next := Switch(s, steps[0]);
      if next.done != s.done {
        assert next.done[..|next.done| - 1] == s.done;
      }
      NoClaimIsLost(owned, next, steps[1..]);
    }
  }

  // ---- Authority ----

  datatype CommandAuthority = AwaitingClaim | Claimed | Controller | Protective

  function NextAuthority(current: CommandAuthority, allOwned: bool): CommandAuthority {
    match current
    case AwaitingClaim => if allOwned then Claimed else AwaitingClaim
    case Claimed => if allOwned then Controller else AwaitingClaim
    case Controller => if allOwned then Controller else Protective
    case Protective => Protective
  }

  function AuthorityAfter(current: CommandAuthority, writes: seq<bool>): CommandAuthority {
    if writes == [] then current
    else NextAuthority(AuthorityAfter(current, writes[..|writes| - 1]), writes[|writes| - 1])
  }

  /** Over any run of writes from activation, each seeing every joint owned or not: a controller
      commands the robot exactly when the last two writes saw every joint owned and no owner has
      let go after commanding; once one has, protective is for good. */
  lemma {:induction false} ControllerNeedsTwoOwnedWrites(writes: seq<bool>)
    ensures var a := AuthorityAfter(AwaitingClaim, writes);
      && (a.Protective? <==> Released(writes))
      && (a.Controller? <==> !Released(writes) && OwnedTwice(writes))
      && (a.Claimed? <==> !Released(writes) && OwnedOnce(writes) && !OwnedTwice(writes))
  {
    if writes == [] {
    } else {
      var rest := writes[..|writes| - 1];
      ControllerNeedsTwoOwnedWrites(rest);
    }
  }

  predicate OwnedOnce(writes: seq<bool>) {
    |writes| >= 1 && writes[|writes| - 1]
  }

  predicate OwnedTwice(writes: seq<bool>) {
    |writes| >= 2 && writes[|writes| - 1] && writes[|writes| - 2]
  }

  /** Some two owned writes in a row were followed by one that was not. */
  predicate Released(writes: seq<bool>) {
    writes != [] &&
    (Released(writes[..|writes| - 1]) ||
     (OwnedTwice(writes[..|writes| - 1]) && !writes[|writes| - 1]))
  }
}
