/** Applying committed entries: configuration entries change the membership, all
    others go to the state machine (internal/raft/node_apply.go). */
module RaftApply {
  import opened Types
  import opened Bytes
  import opened Quorum
  import opened RaftStep
  import opened RaftProtocol
  import opened RaftSafety
  import ConfigEntry

  // ---- Configuration entries ----

  /** applyConfigurationEntryLocked: the membership an entry stands for. */
  function Reconfigured(data: seq<byte>): Option<Membership> {
    if |data| < 6 then None
    else if data[5] == ConfigEntry.STABLE then
      match ConfigEntry.DecodeStable(data)
      case None => None
      case Some(c) => Some(Stable(c))
    else if data[5] == ConfigEntry.ENTER_JOINT then
      match ConfigEntry.DecodeEnterJoint(data)
      case None => None
      case Some(joint) => Some(EnterJoint(joint.oldC, joint.newC))
    else if data[5] == ConfigEntry.LEAVE_JOINT then
      match ConfigEntry.DecodeLeaveJoint(data)
      case None => None
      case Some(c) => Some(Stable(c))
    else None
  }

  /** The sixth byte names the kind. */
  lemma KindByte(data: seq<byte>)
    ensures ConfigEntry.DecodeStable(data).Some? ==> |data| >= 6 && data[5] == ConfigEntry.STABLE
    ensures ConfigEntry.DecodeEnterJoint(data).Some? ==> |data| >= 6 && data[5] == ConfigEntry.ENTER_JOINT
    ensures ConfigEntry.DecodeLeaveJoint(data).Some? ==> |data| >= 6 && data[5] == ConfigEntry.LEAVE_JOINT
  {
    Widths();
    KindAt(data, ConfigEntry.STABLE);
    KindAt(data, ConfigEntry.ENTER_JOINT);
    KindAt(data, ConfigEntry.LEAVE_JOINT);
  }

  lemma KindAt(data: seq<byte>, kind: byte)
    ensures ConfigEntry.OpenEnvelope(data, kind).Some? ==> |data| >= 6 && data[5] == kind
  {
    Widths();
    if ConfigEntry.OpenEnvelope(data, kind).Some? {
      ConfigEntry.OpenedIsSealed(data, kind);
    }
  }

  /** An entry makes the membership stable exactly if it encodes that
      configuration as a stable or a leave-joint entry, and joint exactly if it
      encodes those two configurations as an enter-joint entry. */
  lemma ReconfiguredExact(data: seq<byte>, c: Configuration, joint: JointConfiguration)
    ensures Reconfigured(data) == Some(Membership(c, None)) <==>
            ConfigEntry.EncodeStable(c) == Some(data) || ConfigEntry.EncodeLeaveJoint(c) == Some(data)
    ensures Reconfigured(data) == Some(Membership(joint.oldC, Some(joint))) <==>
            ConfigEntry.EncodeEnterJoint(joint) == Some(data)
  {
    hide ConfigEntry.DecodeStable, ConfigEntry.DecodeEnterJoint, ConfigEntry.DecodeLeaveJoint;
    hide ConfigEntry.EncodeStable, ConfigEntry.EncodeEnterJoint, ConfigEntry.EncodeLeaveJoint;
    KindByte(data);
    ConfigEntry.StableExact(c, data);
    ConfigEntry.LeaveJointExact(c, data);
    ConfigEntry.EnterJointExact(joint, data);
  }

  // ---- The loop ----

  /** What the state machine is to see of the entries after `start` up to `end`. */
  function Commands(log: seq<Entry>, start: nat, end: nat): seq<Entry>
    requires start <= end <= |log|
  {
    if start == end then []
    else Commands(log, start, end - 1) + Command(log[end - 1])
  }

  function Command(e: Entry): seq<Entry> {
    if ConfigEntry.IsConfiguration(e.data) then [] else [e]
  }

  /** The data begins with the four bytes of a configuration entry, "RCFG". */
  predicate Marked(data: seq<byte>) {
    |data| >= 4 && data[0] == 0x52 && data[1] == 0x43 && data[2] == 0x46 && data[3] == 0x47
  }

  /** What is sent: every entry that is not so marked, no other, in the order of
      the indices, each once. */
  ghost predicate SendsExactly(sent: seq<Entry>, log: seq<Entry>, start: nat, end: nat)
    requires start <= end <= |log|
  {
    && (forall i | start <= i < end && !Marked(log[i].data) :: log[i] in sent)
    && (forall k | 0 <= k < |sent| ::
          start < sent[k].index <= end && sent[k] == log[sent[k].index - 1] && !Marked(sent[k].data))
    && (forall j, k | 0 <= j < k < |sent| :: sent[j].index < sent[k].index)
  }

  lemma {:induction false} CommandsExactly(log: seq<Entry>, start: nat, end: nat)
    requires start <= end <= |log| && Consecutive(log, 1)
    ensures SendsExactly(Commands(log, start, end), log, start, end)
    decreases end
  {
    hide ConfigEntry.IsConfiguration, SendsExactly, Consecutive;
    if start == end {
      SendsNothing(log, start);
    } else {
      CommandsExactly(log, start, end - 1);
      ConfigEntry.RecognisedExactly(log[end - 1].data);
      var sent := Commands(log, start, end - 1);
      assert sent + [] == sent;
      SendsNext(sent, log, start, end);
    }
  }

  lemma SendsNothing(log: seq<Entry>, start: nat)
    requires start <= |log|
    ensures SendsExactly([], log, start, start)
  {
  }

  lemma SendsNext(sent: seq<Entry>, log: seq<Entry>, start: nat, end: nat)
    requires start < end <= |log| && Consecutive(log, 1) && SendsExactly(sent, log, start, end - 1)
    ensures SendsExactly(if Marked(log[end - 1].data) then sent else sent + [log[end - 1]], log, start, end)
  {
    hide Marked;
    var e := log[end - 1];
    var sent' := if Marked(e.data) then sent else sent + [e];
    forall i | start <= i < end && !Marked(log[i].data) ensures log[i] in sent' {
      if i < end - 1 {
        assert log[i] in sent;
      } else {
        assert sent'[|sent|] == e;
      }
    }
    assert e.index == end;
  }

  /** The membership after the entries up to `end`. */
  function MembershipAfter(m: Membership, log: seq<Entry>, start: nat, end: nat): Membership
    requires start <= end <= |log|
  {
    if start == end then m else MembershipWith(MembershipAfter(m, log, start, end - 1), log[end - 1])
  }

  function MembershipWith(m: Membership, e: Entry): Membership {
    if ConfigEntry.IsConfiguration(e.data) && Reconfigured(e.data).Some? then Reconfigured(e.data).value else m
  }

  /** The entry is a stable configuration without the node. */
  predicate Removes(e: Entry, id: NodeID) {
    && ConfigEntry.IsConfiguration(e.data) && Reconfigured(e.data).Some?
    && Reconfigured(e.data).value.joint.None? && !IsVoter(Reconfigured(e.data).value, id)
  }

  /** A node is removed exactly by an entry that encodes a configuration without it,
      as a stable or a leave-joint one. */
  lemma RemovedExactly(e: Entry, id: NodeID)
    requires id != []
    ensures Removes(e, id) <==>
            exists c: Configuration ::
              && (ConfigEntry.EncodeStable(c) == Some(e.data) || ConfigEntry.EncodeLeaveJoint(c) == Some(e.data))
              && id !in c.voters
  {
    hide ConfigEntry.EncodeStable, ConfigEntry.EncodeLeaveJoint;
    var none := JointConfiguration(Configuration([]), Configuration([]));
    if Removes(e, id) {
      var c := Reconfigured(e.data).value.current;
      assert Reconfigured(e.data).value == Stable(c);
      ReconfiguredExact(e.data, c, none);
    }
    if c: Configuration :| (ConfigEntry.EncodeStable(c) == Some(e.data) ||
                            ConfigEntry.EncodeLeaveJoint(c) == Some(e.data)) && id !in c.voters {
      ReconfiguredExact(e.data, c, none);
      EncodedIsMarked(c, e.data);
    }
  }

  lemma EncodedIsMarked(c: Configuration, data: seq<byte>)
    requires ConfigEntry.EncodeStable(c) == Some(data) || ConfigEntry.EncodeLeaveJoint(c) == Some(data)
    ensures ConfigEntry.IsConfiguration(data)
  {
    ConfigEntry.StableExact(c, data);
    ConfigEntry.LeaveJointExact(c, data);
    ConfigEntry.KindsDisjoint(data);
  }

  /** A removal among the entries after `start` up to `end`. */
  predicate RemovedIn(log: seq<Entry>, id: NodeID, start: nat, end: nat)
    requires start <= end <= |log|
  {
    exists i | start <= i < end :: Removes(log[i], id)
  }

  /** Several rounds of applying. */
  function ApplyTimes(n: Node, k: nat): Node {
    if k == 0 then n else ApplyNext(ApplyTimes(n, k - 1))
  }

  /** They leave nothing but a higher applied index. */
  lemma {:induction false} AppliedTimes(n: Node, k: nat)
    requires n.applied + k <= n.commit
    ensures ApplyTimes(n, k) == n.(applied := n.applied + k)
  {
    if k > 0 {
      AppliedTimes(n, k - 1);
    }
  }

  // ---- Over a whole run ----

  /** What node `x` has sent to its state machine between two states of a run. */
  function Emitted(r: seq<State>, x: NodeID, a: nat, b: nat): seq<Entry>
    requires a <= b < |r|
    decreases b - a
  {
    if a == b then [] else Emitted(r, x, a, b - 1) + Sent(r[b - 1], r[b], x)
  }

  /** What it sends in one step. */
  function Sent(s: State, s': State, x: NodeID): seq<Entry> {
    if x in s.nodes && x in s'.nodes && s'.nodes[x].applied == s.nodes[x].applied + 1 &&
        s.nodes[x].applied < |s.nodes[x].log|
    then Command(s.nodes[x].log[s.nodes[x].applied]) else []
  }

  /** The node was not restarted to an earlier point in between. */
  ghost predicate Continuous(r: seq<State>, x: NodeID, a: nat, b: nat)
    requires a <= b < |r|
  {
    forall k | a <= k < b :: NoFallback(r[k], r[k + 1], x)
  }

  predicate NoFallback(s: State, s': State, x: NodeID) {
    x in s.nodes && x in s'.nodes ==> s.nodes[x].applied <= s'.nodes[x].applied
  }

  /** A step applies at most the one next committed entry, unless it is a restart. */
  lemma StepApplies(cl: Cluster, s: State, step: Step, x: NodeID)
    requires Enabled(cl, s, step) && x in s.nodes && s.nodes[x].kept.boundary <= s.nodes[x].applied
    ensures x in After(cl, s, step).nodes
    ensures var n, n' := s.nodes[x], After(cl, s, step).nodes[x];
            n'.applied > n.applied ==> n'.applied == n.applied + 1 && n.applied < n.commit && n'.log == n.log
  {
  }

  lemma {:induction false} CommandsSame(p: seq<Entry>, q: seq<Entry>, start: nat, end: nat)
    requires start <= end <= |p| && end <= |q| && p[..end] == q[..end]
    ensures Commands(p, start, end) == Commands(q, start, end)
    decreases end
  {
    if start < end {
      assert p[..end][..end - 1] == p[..end - 1] && q[..end][..end - 1] == q[..end - 1];
      assert p[..end][end - 1] == q[..end][end - 1];
      CommandsSame(p, q, start, end - 1);
    }
  }

  /** Apply order: as long as it is not restarted, a node's state machine gets
      exactly the committed entries that are no configurations, each once, in
      the order of their indices. */
  lemma {:induction false} AppliedInOrder(cl: Cluster, r: seq<State>, x: NodeID, a: nat, b: nat)
    requires Run(cl, r) && a <= b < |r| && x in r[a].nodes
    requires Continuous(r, x, a, b)
    ensures x in r[b].nodes && r[a].nodes[x].applied <= r[b].nodes[x].applied <= |r[b].nodes[x].log|
    ensures Emitted(r, x, a, b) == Commands(r[b].nodes[x].log, r[a].nodes[x].applied, r[b].nodes[x].applied)
    ensures SendsExactly(Emitted(r, x, a, b), r[b].nodes[x].log, r[a].nodes[x].applied, r[b].nodes[x].applied)
    decreases b - a
  {
    hide Run, Enabled, After, Command, SendsExactly;
    IndexOrder(cl, r, a, x);
    if a < b {
      AppliedInOrder(cl, r, x, a, b - 1);
      var step := StepAt(cl, r, b - 1);
      IndexOrder(cl, r, b - 1, x);
      StepApplies(cl, r[b - 1], step, x);
      IndexOrder(cl, r, b, x);
      assert NoFallback(r[b - 1], r[b - 1 + 1], x);
      var n, n' := r[b - 1].nodes[x], r[b].nodes[x];
      StateMachineSafety(cl, r, b - 1, b, x, x, n.applied);
      CommandsSame(n.log, n'.log, r[a].nodes[x].applied, n.applied);
    }
    RunConsecutive(cl, r, b, x);
    CommandsExactly(r[b].nodes[x].log, r[a].nodes[x].applied, r[b].nodes[x].applied);
  }

  /** All state machines see the same commands: up to any index that two nodes
      have committed, they are to apply the same sequence. */
  lemma SameCommands(cl: Cluster, r: seq<State>, a: nat, b: nat, x: NodeID, y: NodeID, i: nat)
    requires Run(cl, r) && a < |r| && b < |r| && x in r[a].nodes && y in r[b].nodes
    requires i <= r[a].nodes[x].commit && i <= r[b].nodes[y].commit
    ensures i <= |r[a].nodes[x].log| && i <= |r[b].nodes[y].log|
    ensures Commands(r[a].nodes[x].log, 0, i) == Commands(r[b].nodes[y].log, 0, i)
  {
    hide Run;
    StateMachineSafety(cl, r, a, b, x, y, i);
    CommandsSame(r[a].nodes[x].log, r[b].nodes[y].log, 0, i);
  }
}
