/** The replication loop of one leader and one follower (replicateTo), and how a
    ReadIndex call collects its answers. */
module Replication {
  import opened Types
  import opened Quorum
  import opened RaftStep
  import opened RaftInvariant
  import opened RaftAccepts
  import opened RaftProtocol
  import RaftInduction
  import RaftSafety

  /** Leader and follower as replicateTo finds them: nothing compacted, the
      follower not ahead in term, logs that match as LogMatching says. */
  ghost predicate Paired(leader: Node, peer: NodeID, follower: Node) {
    && leader.role.Leader? && leader.base == 0
    && peer in leader.next && 1 <= leader.next[peer] <= |leader.log| + 1
    && follower.base == 0 == follower.kept.boundary && follower.term <= leader.term
    && Consecutive(leader.log, 1) && Matching(follower.log, leader.log)
  }

  /** Exactly what a leader sends to a peer whose next index lies above the boundary:
      its log from there to the end, behind the entry before it, with its commit index. */
  lemma MessageExactly(site: Site, n: Node, peer: NodeID)
    requires n.role.Leader? && peer in n.next && n.base <= |n.log| && n.base < n.next[peer] <= |n.log| + 1
    ensures var prev := n.next[peer] - 1;
            var prevTerm := if prev == 0 then 0 else n.log[prev - 1].term;
            BuildAppend(site, n, peer) == Some(AppendArgs(n.term, site.id, prev, prevTerm, n.log[prev..], n.commit))
  {
    RaftInduction.BatchIsTail(n, n.next[peer]);
    if n.next[peer] == |n.log| + 1 {
      assert n.log[|n.log|..] == [];
    }
  }

  /** What a leader sends: its log from the follower's next index to the end. */
  lemma RoundArgs(site: Site, leader: Node, peer: NodeID, follower: Node)
    requires Paired(leader, peer, follower)
    ensures BuildAppend(site, leader, peer).Some?
    ensures var args := BuildAppend(site, leader, peer).value;
            && Carries(args, leader.log)
            && args.prevIndex == leader.next[peer] - 1
            && Last(args) == |leader.log|
            && args.term == leader.term
  {
    hide Matching, BuildAppend, Consecutive;
    MessageExactly(site, leader, peer);
    var args := BuildAppend(site, leader, peer).value;
    assert args.entries == leader.log[args.prevIndex..|leader.log|];
  }

  /** One round: refused with nothing but the term changed, or accepted with the merged log. */
  lemma RoundReply(site: Site, leader: Node, peer: NodeID, follower: Node)
    requires Paired(leader, peer, follower)
    ensures BuildAppend(site, leader, peer).Some?
    ensures var args := BuildAppend(site, leader, peer).value;
            var (follower', reply) := AppendEntries(follower, args, true, true);
            && reply.term == leader.term == follower'.term
            && follower'.base == 0 == follower'.kept.boundary
            && reply.success == PrevMatches(follower, args)
            && follower'.log == if reply.success then Merge(follower.log, leader.log, |leader.log|) else follower.log
  {
    hide Matching, Reconcile, Carries, Merge, Consecutive, BuildAppend, FirstNew;
    RoundArgs(site, leader, peer, follower);
    var args := BuildAppend(site, leader, peer).value;
    var a := if args.term > follower.term then AdoptTerm(follower, args.term) else follower;
    var b := a.(role := Follower);
    assert PrevMatches(a, args) == PrevMatches(b, args) == PrevMatches(follower, args);
    if PrevMatches(follower, args) {
      ReconcileAccepts(b, args, leader.log);
      ReconcileMerges(b, args, leader.log);
    }
  }

  /** The loop: it ends within as many rounds as the next index says, with the
      follower agreeing with the leader through the leader's last index. */
  method ReplicateTo(site: Site, leader: Node, peer: NodeID, follower: Node)
    returns (leader': Node, follower': Node, rounds: nat)
    requires Paired(leader, peer, follower)
    ensures 1 <= rounds <= leader.next[peer]
    ensures follower'.log == Merge(follower.log, leader.log, |leader.log|)
    ensures Holds(follower'.log, leader.log, |leader.log|)
    ensures leader'.log == leader.log && leader'.term == leader.term && leader'.role.Leader?
    ensures rounds > 1 || leader.next[peer] <= |leader.log| ==> At(leader'.matched, peer) >= |leader.log|
  {
    hide Matching, Merge, Consecutive, BuildAppend, AppendEntries, AdvanceCommit, Holds;
    leader', follower', rounds := leader, follower, 0;
    while true
      invariant Paired(leader', peer, follower') && follower'.log == follower.log
      invariant leader' == leader.(next := leader'.next)
      invariant rounds == leader.next[peer] - leader'.next[peer]
      decreases leader'.next[peer]
    {
      RoundArgs(site, leader', peer, follower');
      RoundReply(site, leader', peer, follower');
      var args := BuildAppend(site, leader', peer).value;
      var (f, reply) := AppendEntries(follower', args, true, true);
      rounds := rounds + 1;
      follower' := f;
      if reply.success {
        MergeAgrees(follower.log, leader.log, |leader.log|);
        Noted(site, leader', peer, args, reply);
        leader' := HandleAppendReply(site, leader', peer, args, reply, true);
        return;
      }
      leader' := HandleAppendReply(site, leader', peer, args, reply, true);
    }
  }

  /** A successful answer moves the leader's account of the follower to its last index. */
  lemma Noted(site: Site, leader: Node, peer: NodeID, args: AppendArgs, reply: AppendReply)
    requires leader.role.Leader? && reply.term == leader.term == args.term && reply.success
    requires Carries(args, leader.log) && Last(args) == |leader.log| && Consecutive(leader.log, 1)
    ensures var leader' := HandleAppendReply(site, leader, peer, args, reply, true);
            && leader'.log == leader.log && leader'.term == leader.term && leader'.role.Leader?
            && (args.entries != [] ==> At(leader'.matched, peer) >= |leader.log|)
  {
    if args.entries != [] {
      assert args.entries[|args.entries| - 1] == leader.log[|leader.log| - 1];
    }
  }

  // ---- ReadIndex ----

  /** One element of the results channel: `None` for a failed call. */
  datatype Answer = Answer(peer: NodeID, reply: Option<AppendReply>)

  datatype Verdict = Confirmed(acks: set<NodeID>) | Deposed(term: nat) | Unavailable

  /** The peers among the first `k` answers that confirmed `term`. */
  function Confirming(answers: seq<Answer>, term: nat): set<NodeID> {
    set a | a in answers && Confirms(a, term) :: a.peer
  }

  predicate Confirms(a: Answer, term: nat) {
    a.reply.Some? && a.reply.value.term == term && a.reply.value.success
  }

  predicate Deposes(a: Answer, term: nat) {
    a.reply.Some? && a.reply.value.term > term
  }

  /** The counting loop of ReadIndex: it confirms at the first moment a quorum
      has answered in the term of the read, gives up at the first higher term,
      and never counts an answer of another term or a failed one. */
  method CollectAnswers(id: NodeID, membership: Membership, term: nat, answers: seq<Answer>)
      returns (verdict: Verdict, used: nat)
    ensures used <= |answers|
    ensures forall i | 0 <= i < used - 1 :: !Deposes(answers[i], term)
    ensures forall i | 0 <= i < used :: !HasQuorum(membership, {id} + Confirming(answers[..i], term))
    ensures verdict.Confirmed? ==>
        verdict.acks == {id} + Confirming(answers[..used], term) && HasQuorum(membership, verdict.acks)
    ensures verdict.Deposed? ==>
        used > 0 && Deposes(answers[used - 1], term) && verdict.term == answers[used - 1].reply.value.term
    ensures verdict.Unavailable? ==> used == |answers| && !HasQuorum(membership, {id} + Confirming(answers, term))
  {
    hide HasQuorum;
    var acks := {id};
    used := 0;
    assert Confirming(answers[..0], term) == {};
    var quorum := MembershipHasQuorum(membership, acks);
    assert {id} + Confirming(answers[..0], term) == {id};
    if quorum {
      return Confirmed(acks), 0;
    }
    while used < |answers|
      invariant used <= |answers|
      invariant forall i | 0 <= i < used :: !Deposes(answers[i], term)
      invariant acks == {id} + Confirming(answers[..used], term)
      invariant forall i | 0 <= i <= used :: !HasQuorum(membership, {id} + Confirming(answers[..i], term))
    {
      var answer := answers[used];
      used := used + 1;
      OneMore(answers, used, term);
      if Deposes(answer, term) {
        return Deposed(answer.reply.value.term), used;
      }
      if Confirms(answer, term) {
        acks := acks + {answer.peer};
        quorum := MembershipHasQuorum(membership, acks);
        if quorum {
          return Confirmed(acks), used;
        }
      }
    }
    assert answers[..|answers|] == answers;
    return Unavailable, used;
  }

  /** Exactly what a probe carries: no entries, the entry before the peer's next
      index, and the commit index from when the read began. */
  lemma ProbeExactly(site: Site, n: Node, peer: NodeID, readIndex: nat)
    requires n.role.Leader? && peer in n.next && n.base <= |n.log|
    requires n.next[peer] <= 1 || n.base < n.next[peer] <= |n.log| + 1
    ensures var prev := if n.next[peer] > 1 then n.next[peer] - 1 else 0;
            var prevTerm := if prev == 0 then 0 else n.log[prev - 1].term;
            Probe(site, n, peer, readIndex) == Some(AppendArgs(n.term, site.id, prev, prevTerm, [], readIndex))
  {
  }

  datatype ReadOutcome = Index(index: nat) | NotLeader | NothingOwn | LeadershipLost | NoQuorum

  /** A quorum has confirmed the term among the first `k` answers, and none of them
      has shown a higher one. */
  ghost predicate QuorumBy(id: NodeID, membership: Membership, term: nat, answers: seq<Answer>, k: nat) {
    && k <= |answers| && HasQuorum(membership, {id} + Confirming(answers[..k], term))
    && forall i | 0 <= i < k :: !Deposes(answers[i], term)
  }

  /** ReadIndex: check, collect, check again, cap. `atStart` is the node when the
      call begins, `atEnd` when the answer arrives that completes a quorum. An index
      is returned exactly for a leader that has committed an entry of its term, once
      a quorum confirms it and it is leader of that term still; and never one beyond
      the commit index at the start. */
  method ReadIndex(id: NodeID, membership: Membership, atStart: Node, answers: seq<Answer>, atEnd: Node)
      returns (outcome: ReadOutcome, used: nat)
    ensures outcome.Index? ==>
              && atStart.role.Leader? && 1 <= atStart.commit <= |atStart.log| && atStart.base <= atStart.commit
              && atStart.log[atStart.commit - 1].term == atStart.term
              && QuorumBy(id, membership, atStart.term, answers, used)
              && (used > 0 ==> atEnd.role.Leader? && atEnd.term == atStart.term)
              && outcome.index <= atStart.commit
              && (outcome.index == atStart.commit || (used > 0 && outcome.index == atEnd.commit))
              && (used > 0 ==> outcome.index == RaftSafety.ReadResult(atStart, atEnd))
    ensures atStart.role.Leader? && 1 <= atStart.commit <= |atStart.log| && atStart.base <= atStart.commit &&
            atStart.log[atStart.commit - 1].term == atStart.term && atEnd.role.Leader? && atEnd.term == atStart.term &&
            (exists k :: QuorumBy(id, membership, atStart.term, answers, k)) ==>
              outcome.Index?
    ensures outcome.NotLeader? <==> !atStart.role.Leader?
    ensures outcome.NothingOwn? ==> !RaftSafety.MayRead(atStart)
    ensures outcome.Index? ==> RaftSafety.MayRead(atStart)
  {
    hide HasQuorum;
    if !atStart.role.Leader? {
      return NotLeader, 0;
    }
    if !Readable(atStart, atStart.commit) || atStart.log[atStart.commit - 1].term != atStart.term {
      return NothingOwn, 0;
    }
    var verdict;
    verdict, used := CollectAnswers(id, membership, atStart.term, answers);
    if verdict.Confirmed? {
      NoneDeposes(id, membership, atStart.term, answers, used);
      if used == 0 {
        return Index(atStart.commit), 0;
      }
      if !atEnd.role.Leader? || atEnd.term != atStart.term {
        return LeadershipLost, used;
      }
      var safeIndex := atEnd.commit;
      if safeIndex > atStart.commit {
        safeIndex := atStart.commit;
      }
      return Index(safeIndex), used;
    }
    forall k ensures !QuorumBy(id, membership, atStart.term, answers, k) {
      if QuorumBy(id, membership, atStart.term, answers, k) {
        QuorumStays(id, membership, atStart.term, answers, k);
      }
    }
    return if verdict.Deposed? then LeadershipLost else NoQuorum, used;
  }

  /** The answer that completes a quorum is a confirmation. */
  lemma NoneDeposes(id: NodeID, membership: Membership, term: nat, answers: seq<Answer>, used: nat)
    requires used <= |answers| && HasQuorum(membership, {id} + Confirming(answers[..used], term))
    requires forall i | 0 <= i < used - 1 :: !Deposes(answers[i], term)
    requires forall i | 0 <= i < used :: !HasQuorum(membership, {id} + Confirming(answers[..i], term))
    ensures QuorumBy(id, membership, term, answers, used)
  {
    hide HasQuorum;
    if used > 0 && Deposes(answers[used - 1], term) {
      NothingConfirmed(answers, used, term);
    }
  }

  lemma NothingConfirmed(answers: seq<Answer>, k: nat, term: nat)
    requires 1 <= k <= |answers| && !Confirms(answers[k - 1], term)
    ensures Confirming(answers[..k], term) == Confirming(answers[..k - 1], term)
  {
    OneMore(answers, k, term);
  }

  /** More answers leave a quorum one. */
  lemma QuorumStays(id: NodeID, membership: Membership, term: nat, answers: seq<Answer>, k: nat)
    requires QuorumBy(id, membership, term, answers, k)
    ensures HasQuorum(membership, {id} + Confirming(answers, term))
  {
    hide HasQuorum;
    forall a | a in answers[..k] ensures a in answers {
    }
    assert Confirming(answers[..k], term) <= Confirming(answers, term);
    QuorumMonotone(membership, {id} + Confirming(answers[..k], term), {id} + Confirming(answers, term));
  }

  lemma OneMore(answers: seq<Answer>, k: nat, term: nat)
    requires 1 <= k <= |answers|
    ensures var more: set<NodeID> := if Confirms(answers[k - 1], term) then {answers[k - 1].peer} else {};
            Confirming(answers[..k], term) == Confirming(answers[..k - 1], term) + more
  {
    assert answers[..k] == answers[..k - 1] + [answers[k - 1]];
  }

  /** The answers of a read, as messages of a run: each reply was sent after state `a`. */
  ghost predicate Received(r: seq<State>, a: nat, b: nat, answers: seq<Answer>)
    requires a <= b < |r|
  {
    forall answer | answer in answers && answer.reply.Some? ::
      answer.peer in r[a].nodes && exists m :: Bears(m, answer) && m in r[b].msgs && m !in r[a].msgs
  }

  predicate Bears(m: Message, answer: Answer) {
    m.AppendResponse? && m.from == answer.peer && answer.reply == Some(m.reply)
  }

  /** The loop and the theorem together: when CollectAnswers confirms, on answers
      received in a run, the index ReadIndex returns covers whatever any node had
      committed when the read began. */
  lemma ConfirmedReadIsLinearizable(cl: Cluster, r: seq<State>, before: nat, a: nat, b: nat, id: NodeID, x: NodeID,
                                    answers: seq<Answer>, used: nat)
    requires Run(cl, r) && before <= a <= b < |r| && id in r[a].nodes && id in r[b].nodes && x in r[before].nodes
    requires RaftSafety.MayRead(r[a].nodes[id])
    requires r[b].nodes[id].role.Leader? && r[b].nodes[id].term == r[a].nodes[id].term
    requires used <= |answers| && Received(r, a, b, answers[..used])
    requires HasQuorum(cl.membership, {id} + Confirming(answers[..used], r[a].nodes[id].term))
    ensures r[before].nodes[x].commit <= RaftSafety.ReadResult(r[a].nodes[id], r[b].nodes[id]) == r[a].nodes[id].commit
  {
    hide Run, HasQuorum;
    var acks := Acks(r, a, b, answers[..used], r[a].nodes[id].term);
    assert RaftSafety.Acknowledged(id, acks) == {id} + Confirming(answers[..used], r[a].nodes[id].term);
    RaftSafety.LinearizableRead(cl, r, before, a, b, id, acks, x);
  }

  /** The messages behind the confirming answers. */
  lemma {:induction false} Acks(r: seq<State>, a: nat, b: nat, answers: seq<Answer>, term: nat)
      returns (acks: set<Message>)
    requires a <= b < |r| && Received(r, a, b, answers)
    ensures forall m | m in acks ::
              && m.AppendResponse? && m in r[b].msgs && m !in r[a].msgs && m.from in r[a].nodes
              && m.reply.success && m.reply.term == term
    ensures (set m | m in acks && m.AppendResponse? :: m.from) == Confirming(answers, term)
    decreases |answers|
  {
    if answers == [] {
      acks := {};
    } else {
      var last := |answers| - 1;
      var answer := answers[last];
      acks := Acks(r, a, b, answers[..last], term);
      assert answers[..|answers|] == answers;
      OneMore(answers, |answers|, term);
      if Confirms(answer, term) {
        assert answer in answers;
        var m :| Bears(m, answer) && m in r[b].msgs && m !in r[a].msgs;
        acks := acks + {m};
      }
    }
  }
}
