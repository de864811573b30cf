/** The safety properties of the protocol, over every run of a cluster with one
    membership: election safety, log matching, leader completeness, state
    machine safety, and reads through ReadIndex. */
module RaftSafety {
  import opened Types
  import opened Quorum
  import opened RaftStep
  import opened RaftProtocol
  import opened RaftInvariant
  import opened RaftGrowth
  import opened RaftAccepts
  import opened RaftInduction

  // ---- A run has a history ----

  lemma InitInv(cl: Cluster, s: State)
    requires Init(cl, s)
    ensures Inv(cl, s, BLANK)
  {
  }

  lemma GrowsReflexive(h: History)
    ensures Grows(h, h)
  {
  }

  /** One history per state, each growing out of the one before. */
  ghost predicate Chronicle(cl: Cluster, r: seq<State>, hs: seq<History>) {
    && |hs| == |r|
    && (forall k | 0 <= k < |r| :: Inv(cl, r[k], hs[k]))
    && (forall a, b | 0 <= a <= b < |r| :: Grows(hs[a], hs[b]))
  }

  lemma {:induction false} RunHasChronicle(cl: Cluster, r: seq<State>) returns (hs: seq<History>)
    requires Run(cl, r)
    ensures Chronicle(cl, r, hs)
  {
    hide Inv, Grows, Init, Next;
    if |r| == 1 {
      InitInv(cl, r[0]);
      GrowsReflexive(BLANK);
      hs := [BLANK];
    } else {
      var last := |r| - 1;
      assert Next(cl, r[last - 1], r[last - 1 + 1]);
      var before := RunHasChronicle(cl, r[..last]);
      var h := NextKeeps(cl, r[last - 1], before[last - 1], r[last]);
      hs := before + [h];
      GrowsReflexive(h);
      forall a, b | 0 <= a <= b < |r| ensures Grows(hs[a], hs[b]) {
        if a < b == last {
          GrowsTransitive(hs[a], before[last - 1], h);
        }
      }
    }
  }

  lemma NextKeeps(cl: Cluster, s: State, h: History, s': State) returns (h': History)
    requires Inv(cl, s, h) && Next(cl, s, s')
    ensures Inv(cl, s', h') && Grows(h, h')
  {
    hide Inv;
    var step :| Enabled(cl, s, step) && s' == After(cl, s, step);
    h' := StepKeeps(cl, s, h, step);
  }

  // ---- Safety ----

  /** Each term has at most one leader, over the whole run. */
  lemma ElectionSafety(cl: Cluster, r: seq<State>, a: nat, b: nat, x: NodeID, y: NodeID)
    requires Run(cl, r) && a < |r| && b < |r|
    requires x in r[a].nodes && r[a].nodes[x].role.Leader?
    requires y in r[b].nodes && r[b].nodes[y].role.Leader?
    requires r[a].nodes[x].term == r[b].nodes[y].term
    ensures x == y
  {
    if b < a {
      ElectionSafety(cl, r, b, a, y, x);
    } else {
      hide Run;
      var hs := RunHasChronicle(cl, r);
      LeaderAt(cl, r[a], hs[a], x);
      LeaderAt(cl, r[b], hs[b], y);
      assert Grows(hs[a], hs[b]);
    }
  }

  lemma LeaderAt(cl: Cluster, s: State, h: History, x: NodeID)
    requires Inv(cl, s, h) && x in s.nodes && s.nodes[x].role.Leader?
    ensures LeaderOk(cl, h, x, s.nodes[x])
  {
    assert NodeOk(cl, h, x, s.nodes[x]);
  }

  /** A node's log and commit index in terms of any later history. */
  lemma NodeLater(cl: Cluster, s: State, h: History, x: NodeID, h': History)
    requires Inv(cl, s, h) && Grows(h, h') && x in s.nodes
    ensures s.nodes[x].commit <= |s.nodes[x].log|
    ensures Rooted(h', s.nodes[x].log)
    ensures Backed(h', s.nodes[x].log, s.nodes[x].commit, s.nodes[x].term)
  {
    var n := s.nodes[x];
    assert NodeOk(cl, h, x, n);
    RootedGrows(h, h', n.log);
    BackedGrows(h, h', n.log, n.log, n.commit, n.term, n.term);
  }

  /** Two logs with the same term at an index are the same up to that index,
      data included, whenever and wherever the two logs were seen. */
  lemma LogMatching(cl: Cluster, r: seq<State>, a: nat, b: nat, x: NodeID, y: NodeID, i: nat)
    requires Run(cl, r) && a < |r| && b < |r| && x in r[a].nodes && y in r[b].nodes
    requires 1 <= i <= |r[a].nodes[x].log| && i <= |r[b].nodes[y].log|
    requires r[a].nodes[x].log[i - 1].term == r[b].nodes[y].log[i - 1].term
    ensures r[a].nodes[x].log[..i] == r[b].nodes[y].log[..i]
  {
    hide Run, Inv, Grows, Rooted, Backed;
    var hs := RunHasChronicle(cl, r);
    var h := hs[|r| - 1];
    assert Grows(hs[a], h) && Grows(hs[b], h);
    NodeLater(cl, r[a], hs[a], x, h);
    NodeLater(cl, r[b], hs[b], y, h);
    SameTermSamePrefix(h, r[a].nodes[x].log, r[b].nodes[y].log, i);
  }

  /** Two committed prefixes agree. */
  lemma BackedAgree(cl: Cluster, s: State, h: History, p: seq<Entry>, q: seq<Entry>, i: nat, t: nat, t': nat)
    requires Inv(cl, s, h) && 1 <= i && t <= t'
    requires BackedBy(h, p, i, t) && BackedBy(h, q, i, t')
    ensures Holds(p, q, i)
  {
    hide NodesOk, BallotsOk, ReignsOk, AcksOk, HeldOk, VotesKeep, Complete, MessagesOk;
    assert s.nodes.Keys == cl.ids by {
      KeysAt(cl, s.nodes, h);
    }
    LeaderHasCommitted(cl, s.nodes, h, t, t', i);
  }

  lemma KeysAt(cl: Cluster, ns: Nodes, h: History)
    requires NodesOk(cl, ns, h)
    ensures ns.Keys == cl.ids
  {
  }

  /** What any two nodes have committed, at whatever times, agrees: both hold the
      same entries up to every index that both commit indices cover. */
  lemma StateMachineSafety(cl: Cluster, r: seq<State>, a: nat, b: nat, x: NodeID, y: NodeID, i: nat)
    requires Run(cl, r) && a < |r| && b < |r| && x in r[a].nodes && y in r[b].nodes
    requires i <= r[a].nodes[x].commit && i <= r[b].nodes[y].commit
    ensures i <= |r[a].nodes[x].log| && i <= |r[b].nodes[y].log|
    ensures r[a].nodes[x].log[..i] == r[b].nodes[y].log[..i]
  {
    hide Run, Inv, Grows, Rooted, Backed, BackedBy;
    var hs := RunHasChronicle(cl, r);
    var h := hs[|r| - 1];
    assert Grows(hs[a], h) && Grows(hs[b], h);
    NodeLater(cl, r[a], hs[a], x, h);
    NodeLater(cl, r[b], hs[b], y, h);
    if i > 0 {
      var t := BackingTerm(h, r[a].nodes[x].log, r[a].nodes[x].commit, i, r[a].nodes[x].term);
      var t' := BackingTerm(h, r[b].nodes[y].log, r[b].nodes[y].commit, i, r[b].nodes[y].term);
      if t <= t' {
        BackedAgree(cl, r[|r| - 1], h, r[a].nodes[x].log, r[b].nodes[y].log, i, t, t');
      } else {
        BackedAgree(cl, r[|r| - 1], h, r[b].nodes[y].log, r[a].nodes[x].log, i, t', t);
      }
    }
  }

  lemma BackingTerm(h: History, log: seq<Entry>, k: nat, i: nat, term: nat) returns (t: nat)
    requires Backed(h, log, k, term) && 1 <= i <= k
    ensures BackedBy(h, log, i, t) && t <= term
  {
    BackedShorter(h, log, k, i, term);
    t :| BackedBy(h, log, i, t) && t <= term;
  }

  /** What is committed when a node is in some term is in the log of every
      leader of a later term from then on. */
  lemma LeaderCompleteness(cl: Cluster, r: seq<State>, a: nat, b: nat, x: NodeID, y: NodeID, i: nat)
    requires Run(cl, r) && a <= b < |r| && x in r[a].nodes && y in r[b].nodes
    requires i <= r[a].nodes[x].commit
    requires r[b].nodes[y].role.Leader? && r[a].nodes[x].term < r[b].nodes[y].term
    ensures i <= |r[a].nodes[x].log| && i <= |r[b].nodes[y].log|
    ensures r[a].nodes[x].log[..i] == r[b].nodes[y].log[..i]
  {
    hide Run, Inv, Grows, Rooted, Backed;
    var hs := RunHasChronicle(cl, r);
    var h := hs[b];
    assert Grows(hs[a], h);
    NodeLater(cl, r[a], hs[a], x, h);
    LeaderAt(cl, r[b], h, y);
    if i > 0 {
      var t := BackingTerm(h, r[a].nodes[x].log, r[a].nodes[x].commit, i, r[a].nodes[x].term);
      LeaderHas(cl, r[b], h, t, r[b].nodes[y].term, i);
    }
  }

  lemma LeaderHas(cl: Cluster, s: State, h: History, t: nat, t': nat, i: nat)
    requires Inv(cl, s, h) && t in h.reigns && t' in h.reigns && t <= t' && 0 < i <= h.reigns[t].commit
    ensures Holds(h.reigns[t'].log, h.reigns[t].log, i)
  {
    hide NodesOk, BallotsOk, ReignsOk, AcksOk, HeldOk, VotesKeep, Complete, MessagesOk;
    KeysAt(cl, s.nodes, h);
    LeaderHasCommitted(cl, s.nodes, h, t, t', i);
  }

  /** Every log is consecutive from index 1. */
  lemma RunConsecutive(cl: Cluster, r: seq<State>, a: nat, x: NodeID)
    requires Run(cl, r) && a < |r| && x in r[a].nodes
    ensures Consecutive(r[a].nodes[x].log, 1)
  {
    hide Run, Inv, Grows, Backed;
    var hs := RunHasChronicle(cl, r);
    var log := r[a].nodes[x].log;
    NodeLater(cl, r[a], hs[a], x, hs[a]);
    forall k | 0 <= k < |log| ensures log[k].index == 1 + k {
      var t := log[k].term;
      ReignLog(cl, r[a], hs[a], t);
      HoldsAt(log, hs[a].reigns[t].log, k + 1, k);
    }
  }

  lemma ReignLog(cl: Cluster, s: State, h: History, t: nat)
    requires Inv(cl, s, h) && t in h.reigns
    ensures Consecutive(h.reigns[t].log, 1)
  {
    ReignAt(cl, s.nodes, h, t);
  }

  /** Snapshot boundary, applied index, commit index and last index stay in order. */
  lemma IndexOrder(cl: Cluster, r: seq<State>, a: nat, x: NodeID)
    requires Run(cl, r) && a < |r| && x in r[a].nodes
    ensures var n := r[a].nodes[x];
            n.kept.dropped <= n.base <= n.kept.boundary <= n.applied <= n.commit <= |n.log| && n.kept.term <= n.term
  {
    hide Run;
    var hs := RunHasChronicle(cl, r);
    assert Inv(cl, r[a], hs[a]);
    assert NodeOk(cl, hs[a], x, r[a].nodes[x]);
  }

  // ---- Terms over a run ----

  /** In every run a node may snapshot exactly what it has applied and not yet dropped. */
  lemma SnapshotExactly(cl: Cluster, r: seq<State>, a: nat, x: NodeID, index: nat)
    requires Run(cl, r) && a < |r| && x in r[a].nodes
    ensures var n := r[a].nodes[x]; MaySnapshot(n, index) <==> 1 <= index && n.base <= index <= n.applied
  {
    hide Run;
    IndexOrder(cl, r, a, x);
  }

  /** Only a restart lowers a term, and none below what is kept. */
  lemma StepTerms(cl: Cluster, s: State, step: Step, x: NodeID)
    requires Enabled(cl, s, step) && x in s.nodes && s.nodes[x].kept.term <= s.nodes[x].term
    ensures x in After(cl, s, step).nodes
    ensures var n, n' := s.nodes[x], After(cl, s, step).nodes[x];
            n.kept.term <= n'.kept.term && (n'.term < n.term ==> step.Reboot? && step.id == x && n.kept.term <= n'.term)
  {
  }

  /** A response put into the network by a step carries at least what its sender had kept before it. */
  lemma StepResponses(cl: Cluster, s: State, step: Step, msg: Message)
    requires Enabled(cl, s, step) && msg.AppendResponse? && msg in After(cl, s, step).msgs && msg !in s.msgs
    requires msg.from in s.nodes ==> s.nodes[msg.from].kept.term <= s.nodes[msg.from].term
    ensures msg.from in s.nodes && s.nodes[msg.from].kept.term <= msg.reply.term
  {
  }

  lemma StepAt(cl: Cluster, r: seq<State>, k: nat) returns (step: Step)
    requires Run(cl, r) && k + 1 < |r|
    ensures Enabled(cl, r[k], step) && r[k + 1] == After(cl, r[k], step)
  {
    assert Next(cl, r[k], r[k + 1]);
    step :| Enabled(cl, r[k], step) && r[k + 1] == After(cl, r[k], step);
  }

  /** What a node has kept of its term never falls, whatever restarts there are,
      and neither does any later term fall below it. */
  lemma {:induction false} KeptNeverFalls(cl: Cluster, r: seq<State>, a: nat, b: nat, x: NodeID)
    requires Run(cl, r) && a <= b < |r| && x in r[a].nodes
    ensures x in r[b].nodes && r[a].nodes[x].kept.term <= r[b].nodes[x].kept.term <= r[b].nodes[x].term
    decreases b - a
  {
    hide Run, Enabled, After;
    IndexOrder(cl, r, a, x);
    if a < b {
      KeptNeverFalls(cl, r, a, b - 1, x);
      var step := StepAt(cl, r, b - 1);
      StepTerms(cl, r[b - 1], step, x);
      IndexOrder(cl, r, b, x);
    }
  }

  /** A response that appears after state `a` carries at least what its sender had kept there. */
  lemma {:induction false} LaterResponses(cl: Cluster, r: seq<State>, a: nat, b: nat, msg: Message)
    requires Run(cl, r) && a <= b < |r| && msg.AppendResponse?
    requires msg in r[b].msgs && msg !in r[a].msgs && msg.from in r[a].nodes
    ensures r[a].nodes[msg.from].kept.term <= msg.reply.term
    decreases b - a
  {
    hide Run, Enabled, After;
    if msg in r[b - 1].msgs {
      LaterResponses(cl, r, a, b - 1, msg);
    } else {
      KeptNeverFalls(cl, r, a, b - 1, msg.from);
      var step := StepAt(cl, r, b - 1);
      StepResponses(cl, r[b - 1], step, msg);
    }
  }

  // ---- Reads ----

  /** ReadIndex may start: the leader has committed an entry of its own term. */
  predicate MayRead(n: Node) {
    n.role.Leader? && Readable(n, n.commit) && n.log[n.commit - 1].term == n.term
  }

  /** The members that answered in the term of the read, with the leader itself. */
  function Acknowledged(id: NodeID, acks: set<Message>): set<NodeID> {
    {id} + set m | m in acks && m.AppendResponse? :: m.from
  }

  /** Answers, in the leader's term, to probes sent after state `a`. */
  ghost predicate Confirmed(r: seq<State>, a: nat, b: nat, id: NodeID, acks: set<Message>)
    requires a <= b < |r| && id in r[a].nodes
  {
    forall m | m in acks ::
      m.AppendResponse? && m in r[b].msgs && m !in r[a].msgs && m.from in r[a].nodes &&
      m.reply.success && m.reply.term == r[a].nodes[id].term
  }

  lemma VoterTerm(ns: Nodes, h: History, v: NodeID, t: nat)
    requires BallotsOk(ns, h) && Slot(v, t) in h.ballots
    ensures v in ns && t <= ns[v].kept.term
  {
    assert Slot(v, t).node == v && Slot(v, t).term == t;
  }

  /** No leader of a later term existed when the read began. */
  lemma NoLaterLeader(cl: Cluster, r: seq<State>, a: nat, b: nat, h: History, id: NodeID, acks: set<Message>, t: nat)
    requires Run(cl, r) && a <= b < |r| && id in r[a].nodes && Inv(cl, r[a], h)
    requires Confirmed(r, a, b, id, acks) && HasQuorum(cl.membership, Acknowledged(id, acks))
    requires t in h.reigns
    ensures t <= r[a].nodes[id].term
  {
    hide Run, NodesOk, ReignsOk, BallotsOk, AcksOk, HeldOk, VotesKeep, Complete, MessagesOk, Rooted, TermsUpTo,
        Committed;
    ReignAt(cl, r[a].nodes, h, t);
    var v := QuorumsMeet(cl.membership, Acknowledged(id, acks), h.reigns[t].electors);
    assert Voted(h, v, t, h.reigns[t].leader);
    VoterTerm(r[a].nodes, h, v, t);
    NodeAt(cl, r[a].nodes, h, id);
    if v != id {
      var m :| m in acks && m.AppendResponse? && m.from == v;
      LaterResponses(cl, r, a, b, m);
    }
  }

  /** When a read begins, nothing that an earlier or the same leader committed lies beyond the leader's commit index. */
  lemma NothingBeyond(cl: Cluster, s: State, h: History, id: NodeID, t: nat)
    requires Inv(cl, s, h) && id in s.nodes && MayRead(s.nodes[id])
    requires t in h.reigns && t <= s.nodes[id].term
    ensures h.reigns[t].commit <= s.nodes[id].commit
  {
    hide BallotsOk, AcksOk, HeldOk, VotesKeep, Complete, MessagesOk, NodesOk, ReignsOk;
    var n := s.nodes[id];
    LeaderAt(cl, s, h, id);
    ReignAt(cl, s.nodes, h, t);
    if t < n.term && n.commit < h.reigns[t].commit {
      LeaderHas(cl, s, h, t, n.term, h.reigns[t].commit);
      HoldsAt(n.log, h.reigns[t].log, h.reigns[t].commit, n.commit - 1);
    }
  }

  /** The read's own commit index was reached in its own term. */
  lemma OwnCommit(cl: Cluster, s: State, h: History, id: NodeID)
    requires Inv(cl, s, h) && id in s.nodes && MayRead(s.nodes[id])
    ensures s.nodes[id].term in h.reigns && s.nodes[id].commit <= h.reigns[s.nodes[id].term].commit
  {
    hide BallotsOk, AcksOk, HeldOk, VotesKeep, Complete, MessagesOk, ReignsOk;
    var n := s.nodes[id];
    assert NodeOk(cl, h, id, n);
    var t := BackingTerm(h, n.log, n.commit, n.commit, n.term);
    ReignAt(cl, s.nodes, h, t);
    HoldsAt(n.log, h.reigns[t].log, n.commit, n.commit - 1);
  }

  /** What ReadIndex returns once a quorum has confirmed the leader. */
  function ReadResult(atStart: Node, atEnd: Node): nat {
    if atEnd.commit > atStart.commit then atStart.commit else atEnd.commit
  }

  /** Linearizable reads: the index returned covers every index that any node
      had committed when the call began, or at any time before. It is the one the
      leader had then committed itself, so that no read waits for what may never
      be committed. */
  lemma LinearizableRead(cl: Cluster, r: seq<State>, before: nat, a: nat, b: nat, id: NodeID, acks: set<Message>,
      x: NodeID)
    requires Run(cl, r) && before <= a <= b < |r|
    requires id in r[a].nodes && id in r[b].nodes && MayRead(r[a].nodes[id])
    requires r[b].nodes[id].role.Leader? && r[b].nodes[id].term == r[a].nodes[id].term
    requires Confirmed(r, a, b, id, acks) && HasQuorum(cl.membership, Acknowledged(id, acks))
    requires x in r[before].nodes
    ensures r[before].nodes[x].commit <= ReadResult(r[a].nodes[id], r[b].nodes[id]) == r[a].nodes[id].commit
  {
    hide Run, Inv, Rooted, Backed, Confirmed, HasQuorum;
    var hs := RunHasChronicle(cl, r);
    assert Grows(hs[before], hs[a]) && Grows(hs[a], hs[b]);
    OwnCommit(cl, r[a], hs[a], id);
    LeaderAt(cl, r[b], hs[b], id);
    NodeLater(cl, r[before], hs[before], x, hs[a]);
    if r[before].nodes[x].commit > 0 {
      var n := r[before].nodes[x];
      var t := BackingTerm(hs[a], n.log, n.commit, n.commit, n.term);
      NoLaterLeader(cl, r, a, b, hs[a], id, acks, t);
      NothingBeyond(cl, r[a], hs[a], id, t);
    }
  }
}
