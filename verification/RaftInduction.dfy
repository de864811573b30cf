/** Every step of the cluster keeps the invariant. */
module RaftInduction {
  import opened Types
  import opened Quorum
  import opened RaftStep
  import opened RaftProtocol
  import opened RaftInvariant
  import opened RaftGrowth
  import opened RaftMoves
  import opened RaftLeads
  import opened RaftAccepts

  lemma GrowsTransitive(h: History, h': History, h'': History)
    requires Grows(h, h') && Grows(h', h'')
    ensures Grows(h, h'')
  {
  }

  lemma PutTwice(s: State, id: NodeID, n: Node, n': Node)
    ensures Put(Put(s, id, n), id, n') == Put(s, id, n')
  {
  }

  lemma PutSame(s: State, id: NodeID)
    requires id in s.nodes
    ensures Put(s, id, s.nodes[id]) == s
  {
    assert s.nodes[id := s.nodes[id]] == s.nodes;
  }

  /** A follower that has only moved on in term and vote. Its term may fall back
      if its commit index falls back to the stored snapshot with it. */
  predicate Quieter(n: Node, n': Node) {
    && n'.log == n.log && n'.role.Follower?
    && n'.kept == n.kept.(term := n'.kept.term, votedFor := n'.kept.votedFor) &&
        Succeeds(n.kept, n'.kept.term, n'.kept.votedFor)
    && Succeeds(n'.kept, n'.term, n'.votedFor)
    && n'.kept.dropped <= n'.base <= n'.kept.boundary <= n'.applied <= n'.commit <= n.commit
    && (n.term <= n'.term || n'.commit == n.kept.boundary)
  }

  lemma QuietNode(cl: Cluster, h: History, id: NodeID, n: Node, n': Node)
    requires NodeOk(cl, h, id, n) && Quieter(n, n')
    ensures NodeOk(cl, h, id, n')
  {
    hide Rooted, Backed, Grows;
    SelfGrows(h);
    BackedShorter(h, n.log, n.commit, n'.commit, n.term);
    BackedGrows(h, h, n.log, n.log, n.kept.boundary, n.kept.term, n'.kept.term);
    if n.term <= n'.term {
      BackedGrows(h, h, n.log, n.log, n'.commit, n.term, n'.term);
    } else {
      BackedGrows(h, h, n.log, n.log, n'.commit, n.kept.term, n'.term);
    }
  }

  lemma QuietKeeps(cl: Cluster, s: State, h: History, id: NodeID, n': Node)
    requires Inv(cl, s, h) && id in s.nodes && Quieter(s.nodes[id], n')
    ensures Inv(cl, Put(s, id, n'), h)
  {
    hide BallotsOk, ReignsOk, AcksOk, HeldOk, VotesKeep, Complete, MessagesOk;
    QuietNode(cl, h, id, s.nodes[id], n');
    RelaxKeeps(cl, s, h, id, n');
  }

  lemma AdoptKeeps(cl: Cluster, s: State, h: History, id: NodeID, term: nat)
    requires Inv(cl, s, h) && id in s.nodes && s.nodes[id].term < term
    ensures Inv(cl, Put(s, id, AdoptTerm(s.nodes[id], term)), h)
  {
    hide BallotsOk, ReignsOk, AcksOk, HeldOk, VotesKeep, Complete, MessagesOk;
    assert NodeOk(cl, h, id, s.nodes[id]);
    QuietKeeps(cl, s, h, id, AdoptTerm(s.nodes[id], term));
  }

  // ---- Elections ----

  lemma DeliverVoteRequestKeeps(cl: Cluster, s: State, h: History, id: NodeID, vargs: VoteArgs, adopted: bool,
      voted: bool)
    returns (h': History)
    requires Inv(cl, s, h) && Enabled(cl, s, DeliverVoteRequest(id, vargs, adopted, voted))
    ensures Inv(cl, After(cl, s, DeliverVoteRequest(id, vargs, adopted, voted)), h') && Grows(h, h')
  {
    hide NodesOk, BallotsOk, ReignsOk, AcksOk, HeldOk, VotesKeep, Complete, MessagesOk;
    var site, n := SiteOf(cl, id), s.nodes[id];
    var (n', reply) := RequestVote(site, n, vargs, adopted, voted);
    var msg := VoteResponse(vargs.candidate, vargs.term, reply);
    h' := h;
    if vargs.term < n.term || (vargs.term > n.term && !adopted) {
      PutSame(s, id);
      SendKeeps(cl, s, h, msg);
    } else {
      var a := if vargs.term > n.term then AdoptTerm(n, vargs.term) else n;
      var s1 := Put(s, id, a);
      if vargs.term > n.term {
        AdoptKeeps(cl, s, h, id, vargs.term);
      } else {
        PutSame(s, id);
      }
      if reply.granted {
        h' := VoteKeeps(cl, s1, h, id, vargs);
        PutTwice(s, id, a, n');
      }
      SendKeeps(cl, Put(s, id, n'), h', msg);
    }
  }

  lemma DeliverVoteResponseKeeps(cl: Cluster, s: State, h: History, id: NodeID, electionTerm: nat,
      vreply: VoteReply, durable: bool)
    requires Inv(cl, s, h) && Enabled(cl, s, DeliverVoteResponse(id, electionTerm, vreply, durable))
    ensures Inv(cl, After(cl, s, DeliverVoteResponse(id, electionTerm, vreply, durable)), h)
  {
    hide BallotsOk, ReignsOk, AcksOk, HeldOk, VotesKeep, Complete;
    var n := s.nodes[id];
    var n' := HandleVoteReply(SiteOf(cl, id), n, electionTerm, vreply, durable);
    assert NodeOk(cl, h, id, n);
    assert MessageOk(s.nodes, h, VoteResponse(id, electionTerm, vreply));
    if n' == n {
      PutSame(s, id);
    } else if vreply.term > n.term {
      QuietKeeps(cl, s, h, id, n');
    } else {
      RelaxKeeps(cl, s, h, id, n');
    }
  }

  lemma WinElectionKeeps(cl: Cluster, s: State, h: History, id: NodeID) returns (h': History)
    requires Inv(cl, s, h) && id in s.nodes
    ensures Inv(cl, Put(s, id, TryBecomeLeader(SiteOf(cl, id), s.nodes[id])), h') && Grows(h, h')
  {
    hide NodesOk, BallotsOk, ReignsOk, AcksOk, HeldOk, VotesKeep, Complete, MessagesOk;
    var n := s.nodes[id];
    if n.role.Candidate? && HasQuorum(cl.membership, n.votes) {
      h' := CrownKeeps(cl, s, h, id);
    } else {
      h' := h;
      PutSame(s, id);
    }
  }

  // ---- The leader ----

  /** The scan stops where it started or at a position the commit rule allows. */
  lemma {:induction false} ScanResult(site: Site, n: Node, commit: nat, index: nat)
    ensures var c := Scan(site, n, commit, index); c == commit || (index <= c && Commits(site, n, c))
    decreases |n.log| + 1 - index
  {
    if index <= |n.log| {
      ScanResult(site, n, if Commits(site, n, index) then index else commit, index + 1);
    }
  }

  lemma AdvanceKeeps(cl: Cluster, s: State, h: History, id: NodeID) returns (h': History)
    requires Inv(cl, s, h) && id in s.nodes
    ensures Inv(cl, Put(s, id, AdvanceCommit(SiteOf(cl, id), s.nodes[id])), h') && Grows(h, h')
  {
    hide NodesOk, BallotsOk, ReignsOk, AcksOk, HeldOk, VotesKeep, Complete, MessagesOk;
    var site, n := SiteOf(cl, id), s.nodes[id];
    ScanResult(site, n, n.commit, n.commit + 1);
    if AdvanceCommit(site, n) == n {
      h' := h;
      PutSame(s, id);
    } else {
      h' := SealKeeps(cl, s, h, id, AdvanceCommit(site, n).commit);
    }
  }

  lemma ProposeKeeps(cl: Cluster, s: State, h: History, id: NodeID, data: seq<byte>, durable: bool)
      returns (h': History)
    requires Inv(cl, s, h) && id in s.nodes
    ensures Inv(cl, Put(s, id, Propose(SiteOf(cl, id), s.nodes[id], data, durable)), h') && Grows(h, h')
  {
    hide NodesOk, BallotsOk, ReignsOk, AcksOk, HeldOk, VotesKeep, Complete, MessagesOk;
    var n := s.nodes[id];
    if !n.role.Leader? || !durable {
      h' := h;
      PutSame(s, id);
    } else {
      var e := Entry(|n.log| + 1, n.term, data);
      var n1 := n.(log := n.log + [e]);
      var h1 := ExtendKeeps(cl, s, h, id, e);
      h' := AdvanceKeeps(cl, Put(s, id, n1), h1, id);
      PutTwice(s, id, n1, AdvanceCommit(SiteOf(cl, id), n1));
      GrowsTransitive(h, h1, h');
    }
  }

  /** Above the boundary, a batch is the tail of the leader's log. */
  lemma BatchIsTail(n: Node, next: nat)
    requires n.base < next && 1 <= next && n.base <= |n.log|
    ensures next <= |n.log| ==> Readable(n, next)
    ensures Batch(n, next) == if next > |n.log| then [] else n.log[next - 1..]
  {
    if next <= |n.log| {
      forall k | 0 <= k < |n.log| + 1 - next ensures Batch(n, next)[k] == n.log[next - 1..][k] {
        assert Batch(n, next)[k] == Fetch(n, next + k);
      }
      assert |Batch(n, next)| == |n.log[next - 1..]|;
    }
  }

  /** What a leader sends carries its log through the last index, and so covers its commit index. */
  lemma BuiltArgs(cl: Cluster, h: History, id: NodeID, n: Node, peer: NodeID)
    requires NodeOk(cl, h, id, n) && BuildAppend(SiteOf(cl, id), n, peer).Some? && n.next[peer] > n.base
    ensures var args := BuildAppend(SiteOf(cl, id), n, peer).value;
            && ArgsOk(h, args)
            && args.prevIndex + |args.entries| == |n.log|
  {
    hide Rooted, Backed, TermsUpTo;
    var args := BuildAppend(SiteOf(cl, id), n, peer).value;
    BatchIsTail(n, n.next[peer]);
    assert args.entries == n.log[args.prevIndex..|n.log|];
  }

  lemma ProbeArgs(cl: Cluster, h: History, id: NodeID, n: Node, peer: NodeID, readIndex: nat)
    requires NodeOk(cl, h, id, n) && Probe(SiteOf(cl, id), n, peer, readIndex).Some?
    requires readIndex <= n.commit
    ensures ArgsOk(h, AckOnly(Probe(SiteOf(cl, id), n, peer, readIndex).value))
  {
    BackedShorter(h, n.log, n.commit, AckOnly(Probe(SiteOf(cl, id), n, peer, readIndex).value).leaderCommit, n.term);
  }

  lemma SendAppendKeeps(cl: Cluster, s: State, h: History, id: NodeID, peer: NodeID, call: nat)
    requires Inv(cl, s, h) && Enabled(cl, s, SendAppend(id, peer, call))
    ensures Inv(cl, After(cl, s, SendAppend(id, peer, call)), h)
  {
    hide BallotsOk, ReignsOk, AcksOk, HeldOk, VotesKeep, Complete, MessagesOk, NodeOk, ArgsOk;
    BuiltArgs(cl, h, id, s.nodes[id], peer);
    SendKeeps(cl, s, h, AppendRequest(peer, call, BuildAppend(SiteOf(cl, id), s.nodes[id], peer).value));
  }

  lemma SendProbeKeeps(cl: Cluster, s: State, h: History, id: NodeID, peer: NodeID, call: nat, readIndex: nat)
    requires Inv(cl, s, h) && Enabled(cl, s, SendProbe(id, peer, call, readIndex))
    ensures Inv(cl, After(cl, s, SendProbe(id, peer, call, readIndex)), h)
  {
    hide BallotsOk, ReignsOk, AcksOk, HeldOk, VotesKeep, Complete, MessagesOk, NodeOk, ArgsOk, AckOnly;
    ProbeArgs(cl, h, id, s.nodes[id], peer, readIndex);
    SendKeeps(cl, s, h, AppendRequest(peer, call, AckOnly(Probe(SiteOf(cl, id), s.nodes[id], peer, readIndex).value)));
  }

  /** A confirmed batch is noted for its peer. */
  lemma NoteNode(cl: Cluster, ns: Nodes, h: History, id: NodeID, n: Node, peer: NodeID, args: AppendArgs)
    requires ReignsOk(cl, ns, h) && NodeOk(cl, h, id, n) && n.role.Leader? && args.term == n.term
    requires ArgsOk(h, args) && args.entries != [] && Acked(h, peer, args.term, Last(args))
    ensures NodeOk(cl, h, id, NoteReplicated(n, peer, args.entries[|args.entries| - 1].index))
  {
    hide ReignsOk, Rooted, Backed, TermsUpTo, Committed;
    ReignAt(cl, ns, h, args.term);
    assert args.entries[|args.entries| - 1] == h.reigns[args.term].log[Last(args) - 1];
  }

  lemma DeliverAppendResponseKeeps(cl: Cluster, s: State, h: History, step: Step) returns (h': History)
    requires Inv(cl, s, h) && step.DeliverAppendResponse? && Enabled(cl, s, step)
    ensures Inv(cl, After(cl, s, step), h') && Grows(h, h')
  {
    hide NodesOk, NodeOk, BallotsOk, ReignsOk, AcksOk, HeldOk, VotesKeep, Complete, MessagesOk, ArgsOk;
    var DeliverAppendResponse(id, peer, call, args, reply, durable) := step;
    var site, n := SiteOf(cl, id), s.nodes[id];
    var n' := HandleAppendReply(site, n, peer, args, reply, durable);
    h' := h;
    if n' == n {
      PutSame(s, id);
    } else if reply.term > n.term {
      AdoptKeeps(cl, s, h, id, reply.term);
    } else if !reply.success {
      NodeAt(cl, s.nodes, h, id);
      NextNode(cl, h, id, n, n'.next);
      RelaxKeeps(cl, s, h, id, n');
    } else {
      MessageAt(s, h, AppendResponse(peer, call, args, reply));
      NodeAt(cl, s.nodes, h, id);
      NoteNode(cl, s.nodes, h, id, n, peer, args);
      var n1 := NoteReplicated(n, peer, args.entries[|args.entries| - 1].index);
      RelaxKeeps(cl, s, h, id, n1);
      h' := AdvanceKeeps(cl, Put(s, id, n1), h, id);
      PutTwice(s, id, n1, n');
    }
  }

  lemma NextNode(cl: Cluster, h: History, id: NodeID, n: Node, next: map<NodeID, nat>)
    requires NodeOk(cl, h, id, n)
    ensures NodeOk(cl, h, id, n.(next := next))
  {
  }

  lemma MessageAt(s: State, h: History, msg: Message)
    requires MessagesOk(s.nodes, h, s.msgs) && msg in s.msgs
    ensures MessageOk(s.nodes, h, msg)
  {
  }

  // ---- The follower ----

  /** An accepted request is an acceptance in the sense of RaftAccepts. */
  lemma AcceptsArgs(cl: Cluster, ns: Nodes, h: History, id: NodeID, args: AppendArgs)
    requires ReignsOk(cl, ns, h) && id in ns && NodeOk(cl, h, id, ns[id]) && ns[id].role.Follower?
    requires ns[id].term == args.term && ArgsOk(h, args) && PrevMatches(ns[id], args)
    requires Reconcile(ns[id], args.entries).Some?
    ensures Accepting(cl, ns, h, id, args, AcceptLog(ns[id], Reconcile(ns[id], args.entries).value, args.leaderCommit))
  {
    var lead := h.reigns[args.term].log;
    ReignAt(cl, ns, h, args.term);
    RootedMatch(h, ns[id].log, lead);
    ReconcileMerges(ns[id], args, lead);
  }

  /** The role falls back to follower and the batch is taken over, if it can be. */
  lemma TakeOver(cl: Cluster, s: State, h: History, id: NodeID, args: AppendArgs) returns (h': History)
    requires Inv(cl, s, h) && id in s.nodes && s.nodes[id].role.Follower? && s.nodes[id].term == args.term
    requires ArgsOk(h, args) && PrevMatches(s.nodes[id], args) && Reconcile(s.nodes[id], args.entries).Some?
    ensures var n' := AcceptLog(s.nodes[id], Reconcile(s.nodes[id], args.entries).value, args.leaderCommit);
            Inv(cl, Put(s, id, n'), h') && Grows(h, h') && ArgsOk(h', args) && Acked(h', id, args.term, Last(args))
  {
    hide NodesOk, BallotsOk, ReignsOk, AcksOk, HeldOk, VotesKeep, Complete, MessagesOk, ArgsOk, Accepting;
    NodeAt(cl, s.nodes, h, id);
    AcceptsArgs(cl, s.nodes, h, id, args);
    h' := AcceptKeeps(cl, s, h, id, args,
                      AcceptLog(s.nodes[id], Reconcile(s.nodes[id], args.entries).value, args.leaderCommit));
  }

  lemma StepDownKeeps(cl: Cluster, s: State, h: History, id: NodeID)
    requires Inv(cl, s, h) && id in s.nodes
    ensures Inv(cl, Put(s, id, StepDown(s.nodes[id])), h)
  {
    hide BallotsOk, ReignsOk, AcksOk, HeldOk, VotesKeep, Complete, MessagesOk;
    assert NodeOk(cl, h, id, s.nodes[id]);
    QuietKeeps(cl, s, h, id, StepDown(s.nodes[id]));
  }

  lemma DeliverAppendKeeps(cl: Cluster, s: State, h: History, id: NodeID, call: nat, args: AppendArgs,
      adopted: bool, logged: bool)
    returns (h': History)
    requires Inv(cl, s, h) && Enabled(cl, s, DeliverAppend(id, call, args, adopted, logged))
    ensures Inv(cl, After(cl, s, DeliverAppend(id, call, args, adopted, logged)), h') && Grows(h, h')
  {
    hide NodesOk, NodeOk, BallotsOk, ReignsOk, AcksOk, HeldOk, VotesKeep, Complete, MessagesOk, ArgsOk, Reconcile,
        PrevMatches, FirstNew, Acked;
    var n := s.nodes[id];
    var (n', reply) := AppendEntries(n, args, adopted, logged);
    var msg := AppendResponse(id, call, args, reply);
    MessageAt(s, h, AppendRequest(id, call, args));
    h' := h;
    if args.term < n.term || (args.term > n.term && !adopted) {
      PutSame(s, id);
      SendKeeps(cl, s, h, msg);
    } else {
      var a := if args.term > n.term then AdoptTerm(n, args.term) else n;
      if args.term > n.term {
        AdoptKeeps(cl, s, h, id, args.term);
      } else {
        PutSame(s, id);
      }
      var s1 := Put(s, id, a);
      if PrevMatches(a, args) {
        var b := a.(role := Follower);
        StepDownKeeps(cl, s1, h, id);
        PutTwice(s, id, a, b);
        var s2 := Put(s, id, b);
        if reply.success {
          PrevIgnoresRole(a, args);
          h' := TakeOver(cl, s2, h, id, args);
          PutTwice(s, id, b, n');
        }
      }
      SendKeeps(cl, Put(s, id, n'), h', msg);
    }
  }

  lemma PrevIgnoresRole(n: Node, args: AppendArgs)
    requires PrevMatches(n, args)
    ensures PrevMatches(n.(role := Follower), args)
  {
  }

  // ---- Housekeeping ----

  lemma SnapshotKeeps(cl: Cluster, s: State, h: History, id: NodeID, n': Node)
    requires Inv(cl, s, h) && id in s.nodes
    requires n' == ApplyNext(s.nodes[id]) ||
             exists index: nat, compacted: bool ::
               n' == Compact(s.nodes[id], index, compacted) && s.nodes[id].kept.boundary <= index
    ensures Inv(cl, Put(s, id, n'), h)
  {
    hide BallotsOk, ReignsOk, AcksOk, HeldOk, VotesKeep, Complete, MessagesOk, Rooted, Backed;
    var n := s.nodes[id];
    assert NodeOk(cl, h, id, n);
    if n'.kept.boundary <= n.commit {
      BackedShorter(h, n.log, n.commit, n'.kept.boundary, n.term);
    }
    RelaxKeeps(cl, s, h, id, n');
  }

  lemma RebootKeeps(cl: Cluster, s: State, h: History, id: NodeID, term: nat, votedFor: NodeID)
    requires Inv(cl, s, h) && Enabled(cl, s, Reboot(id, term, votedFor))
    ensures Inv(cl, Put(s, id, Restart(s.nodes[id], term, votedFor)), h)
  {
    hide BallotsOk, ReignsOk, AcksOk, HeldOk, VotesKeep, Complete, MessagesOk;
    assert NodeOk(cl, h, id, s.nodes[id]);
    QuietKeeps(cl, s, h, id, Restart(s.nodes[id], term, votedFor));
  }

  lemma SendVoteRequestKeeps(cl: Cluster, s: State, h: History, id: NodeID)
    requires Inv(cl, s, h) && Enabled(cl, s, SendVoteRequest(id))
    ensures Inv(cl, After(cl, s, SendVoteRequest(id)), h)
  {
    hide NodesOk, BallotsOk, ReignsOk, AcksOk, HeldOk, VotesKeep, Complete, MessagesOk;
    var n := s.nodes[id];
    NodeAt(cl, s.nodes, h, id);
    SendKeeps(cl, s, h, VoteRequest(VoteArgs(n.term, id, |n.log|, LastTerm(n.log))));
  }

  /** The induction step. */
  lemma StepKeeps(cl: Cluster, s: State, h: History, step: Step) returns (h': History)
    requires Inv(cl, s, h) && Enabled(cl, s, step)
    ensures Inv(cl, After(cl, s, step), h') && Grows(h, h')
  {
    hide Inv;
    h' := h;
    match step
    case Campaign(id, durable) =>
      if IsVoter(cl.membership, id) && durable {
        h' := CampaignKeeps(cl, s, h, id);
      } else {
        PutSame(s, id);
      }
    case SendVoteRequest(id) => SendVoteRequestKeeps(cl, s, h, id);
    case DeliverVoteRequest(id, vargs, adopted, voted) =>
      h' := DeliverVoteRequestKeeps(cl, s, h, id, vargs, adopted, voted);
    case DeliverVoteResponse(id, electionTerm, vreply, durable) =>
      DeliverVoteResponseKeeps(cl, s, h, id, electionTerm, vreply, durable);
    case WinElection(id) => h' := WinElectionKeeps(cl, s, h, id);
    case ClientPropose(id, data, durable) => h' := ProposeKeeps(cl, s, h, id, data, durable);
    case SendAppend(id, peer, call) => SendAppendKeeps(cl, s, h, id, peer, call);
    case SendProbe(id, peer, call, readIndex) => SendProbeKeeps(cl, s, h, id, peer, call, readIndex);
    case DeliverAppend(id, call, args, adopted, logged) =>
      h' := DeliverAppendKeeps(cl, s, h, id, call, args, adopted, logged);
    case DeliverAppendResponse(_, _, _, _, _, _) => h' := DeliverAppendResponseKeeps(cl, s, h, step);
    case LoseStorage(id) => StepDownKeeps(cl, s, h, id);
    case ApplyEntry(id) => SnapshotKeeps(cl, s, h, id, ApplyNext(s.nodes[id]));
    case TakeSnapshot(id, index, compacted) => SnapshotKeeps(cl, s, h, id, Compact(s.nodes[id], index, compacted));
    case Reboot(id, term, votedFor) => RebootKeeps(cl, s, h, id, term, votedFor);
  }
}
