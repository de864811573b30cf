/** Who is granted a vote, and that among any nodes there is one that all of them
    would vote for (internal/raft/node_election.go). */
module RaftElection {
  import opened Types
  import opened Quorum
  import opened RaftStep

  /** A candidate with log `q` is up to date for a voter with log `p`. */
  predicate AsGood(p: seq<Entry>, q: seq<Entry>) {
    UpToDate(p, |q|, LastTerm(q))
  }

  /** The comparison is total: of two nodes, at least one may have the other's vote. */
  lemma AsGoodTotal(p: seq<Entry>, q: seq<Entry>)
    ensures AsGood(p, q) || AsGood(q, p)
  {
  }

  lemma AsGoodTransitive(p: seq<Entry>, q: seq<Entry>, r: seq<Entry>)
    requires AsGood(p, q) && AsGood(q, r)
    ensures AsGood(p, r)
  {
  }

  /** Equally good logs end alike, and a later last term beats any length. */
  lemma AsGoodExactly(p: seq<Entry>, q: seq<Entry>)
    ensures AsGood(p, q) <==> LastTerm(p) < LastTerm(q) || (LastTerm(p) == LastTerm(q) && |p| <= |q|)
    ensures AsGood(p, q) && AsGood(q, p) ==> |p| == |q| && LastTerm(p) == LastTerm(q)
  {
  }

  /** Among any nodes there is one whose log all the others find up to date. */
  lemma {:induction false} BestLog(nodes: map<NodeID, Node>, ids: set<NodeID>) returns (best: NodeID)
    requires ids != {} && ids <= nodes.Keys
    ensures best in ids && forall q | q in ids :: AsGood(nodes[q].log, nodes[best].log)
    decreases |ids|
  {
    hide AsGood;
    var x :| x in ids;
    var rest := ids - {x};
    assert ids == rest + {x};
    AsGoodTotal(nodes[x].log, nodes[x].log);
    if rest == {} {
      best := x;
    } else {
      var y := BestLog(nodes, rest);
      AsGoodTotal(nodes[x].log, nodes[y].log);
      best := if AsGood(nodes[x].log, nodes[y].log) then y else x;
      forall q | q in ids ensures AsGood(nodes[q].log, nodes[best].log) {
        if q != x && best == x {
          AsGoodTransitive(nodes[q].log, nodes[y].log, nodes[x].log);
        }
      }
    }
  }

  /** Exactly who is granted a vote, on what the request and the voter say. */
  lemma GrantedExactly(site: Site, n: Node, args: VoteArgs, adopted: bool, voted: bool)
    ensures var (n', reply) := RequestVote(site, n, args, adopted, voted);
            && (reply.granted <==>
                && n.term <= args.term && (n.term < args.term ==> adopted) && voted
                && IsVoter(site.membership, args.candidate)
                && (n.term < args.term || n.votedFor == [] || n.votedFor == args.candidate)
                && (LastTerm(n.log) < args.lastTerm || (LastTerm(n.log) == args.lastTerm && |n.log| <= args.lastIndex)))
            && reply.voter == site.id && reply.term == n'.term
            && n'.term == (if n.term < args.term && adopted then args.term else n.term)
            && (reply.granted ==> n'.votedFor == args.candidate) && n'.log == n.log
  {
  }

  /** Of any nodes one can be voted for by all the others, in any term above theirs. */
  lemma AllWouldGrant(nodes: map<NodeID, Node>, ids: set<NodeID>, membership: Membership, term: nat)
      returns (best: NodeID)
    requires ids != {} && ids <= nodes.Keys
    requires forall q | q in ids :: nodes[q].term < term && IsVoter(membership, q)
    ensures best in ids
    ensures forall q, peers | q in ids ::
              RequestVote(Site(q, membership, peers), nodes[q],
                          VoteArgs(term, best, |nodes[best].log|, LastTerm(nodes[best].log)), true, true).1 ==
              VoteReply(term, q, true)
  {
    best := BestLog(nodes, ids);
    forall q, peers | q in ids
      ensures RequestVote(Site(q, membership, peers), nodes[q],
                          VoteArgs(term, best, |nodes[best].log|, LastTerm(nodes[best].log)), true, true).1 ==
              VoteReply(term, q, true)
    {
      var args := VoteArgs(term, best, |nodes[best].log|, LastTerm(nodes[best].log));
      assert AsGood(nodes[q].log, nodes[best].log);
      GrantedExactly(Site(q, membership, peers), nodes[q], args, true, true);
    }
  }

  /** Whatever message shows a higher term, the node follows in that term with no
      vote cast, unless it is a request it grants at once. */
  lemma HigherTermWins(site: Site, n: Node, peer: NodeID, vargs: VoteArgs, args: AppendArgs, vreply: VoteReply,
                       reply: AppendReply, electionTerm: nat, saved: bool)
    ensures vargs.term > n.term ==>
              var n' := RequestVote(site, n, vargs, true, saved).0;
              n'.term == vargs.term && n'.role == Follower && (n'.votedFor == [] || n'.votedFor == vargs.candidate)
    ensures args.term > n.term ==>
              var n' := AppendEntries(n, args, true, saved).0;
              n'.term == args.term && n'.role == Follower && n'.votedFor == []
    ensures vreply.term > n.term ==>
              HandleVoteReply(site, n, electionTerm, vreply, true) ==
              n.(term := vreply.term, votedFor := [], role := Follower, votes := {},
                 kept := n.kept.(term := vreply.term, votedFor := []))
    ensures reply.term > n.term ==>
              HandleAppendReply(site, n, peer, args, reply, true) ==
              n.(term := reply.term, votedFor := [], role := Follower,
                 kept := n.kept.(term := reply.term, votedFor := []))
  {
    hide Reconcile, FirstNew;
  }
}
