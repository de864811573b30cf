/** The history behind a cluster state and the invariant that ties the two
    together.

    A history is no part of the program: it is the witness with which the proofs
    in RaftInduction follow a run. `reigns[t]` is what the leader of term t has
    had in its log, `ballots` the votes cast, `acks` how far each node has
    confirmed the log of each leader. */
module RaftInvariant {
  import opened Types
  import opened Quorum
  import opened RaftStep
  import opened RaftProtocol

  type Nodes = map<NodeID, Node>

  datatype Slot = Slot(node: NodeID, term: nat)

  datatype Reign = Reign(leader: NodeID, electors: set<NodeID>, log: seq<Entry>, commit: nat)

  datatype History = History(ballots: map<Slot, NodeID>, reigns: map<nat, Reign>, acks: map<Slot, nat>)

  const BLANK := History(map[], map[], map[])

  // ---- Logs ----

  /** Both sequences reach `i` and agree up to there. */
  predicate Holds(log: seq<Entry>, lead: seq<Entry>, i: nat) {
    i <= |log| && i <= |lead| && log[..i] == lead[..i]
  }

  /** Every prefix that ends in an entry of term t is a prefix of the log of the leader of t. */
  ghost predicate Rooted(h: History, log: seq<Entry>) {
    forall k | 0 <= k < |log| :: log[k].term in h.reigns && Holds(log, h.reigns[log[k].term].log, k + 1)
  }

  ghost predicate TermsUpTo(log: seq<Entry>, term: nat) {
    forall k | 0 <= k < |log| :: log[k].term <= term
  }

  // ---- Votes and acknowledgements ----

  predicate Voted(h: History, voter: NodeID, term: nat, candidate: NodeID) {
    Slot(voter, term) in h.ballots && h.ballots[Slot(voter, term)] == candidate
  }

  /** `q` has confirmed the leader of `t` up to `i`; the leader confirms itself. */
  predicate Acked(h: History, q: NodeID, t: nat, i: nat) {
    || (t in h.reigns && h.reigns[t].leader == q && i <= |h.reigns[t].log|)
    || (Slot(q, t) in h.acks && i <= h.acks[Slot(q, t)])
  }

  /** Position `i` of the leader of `t` holds an entry of that term. */
  predicate Own(h: History, t: nat, i: nat) {
    t in h.reigns && 1 <= i <= |h.reigns[t].log| && h.reigns[t].log[i - 1].term == t
  }

  function Backers(cl: Cluster, h: History, t: nat, i: nat): set<NodeID> {
    set q | q in cl.ids && Acked(h, q, t, i)
  }

  predicate Committed(cl: Cluster, h: History, t: nat, i: nat) {
    Own(h, t, i) && HasQuorum(cl.membership, Backers(cl, h, t, i))
  }

  /** The nodes that have confirmed (t, i) or still might. */
  function Possible(cl: Cluster, ns: Nodes, h: History, t: nat, i: nat): set<NodeID> {
    set q | q in cl.ids && q in ns && (ns[q].kept.term <= t || Acked(h, q, t, i))
  }

  /** (t, i) is committed or could still be. This only ever turns false. */
  predicate Choosable(cl: Cluster, ns: Nodes, h: History, t: nat, i: nat) {
    Own(h, t, i) && HasQuorum(cl.membership, Possible(cl, ns, h, t, i))
  }

  /** The first `k` entries of `log` were committed by some leader up to `term`. */
  ghost predicate Backed(h: History, log: seq<Entry>, k: nat, term: nat) {
    k == 0 || exists t: nat :: BackedBy(h, log, k, t) && t <= term
  }

  predicate BackedBy(h: History, log: seq<Entry>, k: nat, t: nat) {
    t in h.reigns && k <= h.reigns[t].commit && Holds(log, h.reigns[t].log, k)
  }

  // ---- The invariant, part by part ----

  ghost predicate BallotsOk(ns: Nodes, h: History) {
    forall b | b in h.ballots ::
      && b.node in ns
      && b.term <= ns[b.node].kept.term
      && (b.term == ns[b.node].kept.term ==> ns[b.node].kept.votedFor == h.ballots[b])
      && h.ballots[b] != []
      && h.ballots[b] in ns
      && b.term <= ns[h.ballots[b]].kept.term
  }

  ghost predicate ReignOk(cl: Cluster, ns: Nodes, h: History, t: nat)
    requires t in h.reigns
  {
    var reign := h.reigns[t];
    && t >= 1
    && reign.leader in ns && t <= ns[reign.leader].kept.term
    && HasQuorum(cl.membership, reign.electors)
    && (forall v | v in reign.electors :: Voted(h, v, t, reign.leader))
    && Consecutive(reign.log, 1)
    && TermsUpTo(reign.log, t)
    && Rooted(h, reign.log)
    && (reign.commit == 0 || Committed(cl, h, t, reign.commit))
  }

  ghost predicate ReignsOk(cl: Cluster, ns: Nodes, h: History) {
    forall t | t in h.reigns :: ReignOk(cl, ns, h, t)
  }

  /** An acknowledgement that reaches an entry of the leader's own term was
      synced, and the term with it. */
  ghost predicate AcksSynced(ns: Nodes, h: History) {
    forall a: Slot, j: nat | a in h.acks && a.node in ns && j <= h.acks[a] && Own(h, a.term, j) ::
      a.term <= ns[a.node].kept.term
  }

  ghost predicate AcksOk(ns: Nodes, h: History) {
    && (forall a | a in h.acks :: a.node in ns && a.term in h.reigns && h.acks[a] <= |h.reigns[a.term].log|)
    && AcksSynced(ns, h)
  }

  ghost predicate CandidateOk(h: History, id: NodeID, n: Node) {
    && n.term >= 1
    && n.kept.term == n.term
    && (forall v | v in n.votes :: Voted(h, v, n.term, id))
    && (forall k | 0 <= k < |n.log| :: n.log[k].term < n.term)
    && (n.term in h.reigns ==> h.reigns[n.term].leader != id)
  }

  ghost predicate LeaderOk(cl: Cluster, h: History, id: NodeID, n: Node) {
    && n.kept.term == n.term
    && n.term in h.reigns
    && h.reigns[n.term].leader == id
    && h.reigns[n.term].log == n.log
    && h.reigns[n.term].commit <= n.commit
    && (forall p | p in SiteOf(cl, id).peers && p in n.matched ::
        n.matched[p] == 0 || Acked(h, p, n.term, n.matched[p]))
  }

  ghost predicate NodeOk(cl: Cluster, h: History, id: NodeID, n: Node) {
    && n.kept.dropped <= n.base <= n.kept.boundary <= n.applied <= n.commit <= |n.log|
    && Succeeds(n.kept, n.term, n.votedFor)
    && Rooted(h, n.log)
    && TermsUpTo(n.log, n.kept.term)
    && (n.role.Candidate? ==> CandidateOk(h, id, n))
    && (n.role.Leader? ==> LeaderOk(cl, h, id, n))
    && Backed(h, n.log, n.commit, n.term)
    && Backed(h, n.log, n.kept.boundary, n.kept.term)
  }

  ghost predicate NodesOk(cl: Cluster, ns: Nodes, h: History) {
    ns.Keys == cl.ids && forall id | id in ns :: NodeOk(cl, h, id, ns[id])
  }

  /** What a node has confirmed and may yet be committed, its log holds. */
  ghost predicate HeldOk(cl: Cluster, ns: Nodes, h: History) {
    forall q: NodeID, t: nat, i: nat | q in ns && Acked(h, q, t, i) && Choosable(cl, ns, h, t, i) ::
      Holds(ns[q].log, h.reigns[t].log, i)
  }

  /** What a voter had confirmed and may yet be committed, the candidate it voted for holds. */
  ghost predicate VotesKeep(cl: Cluster, ns: Nodes, h: History) {
    forall b: Slot, t: nat, i: nat |
      && b in h.ballots
      && h.ballots[b] in ns
      && ns[h.ballots[b]].role.Candidate?
      && ns[h.ballots[b]].term == b.term
      && t < b.term
      && Acked(h, b.node, t, i)
      && Choosable(cl, ns, h, t, i) ::
      Holds(ns[h.ballots[b]].log, h.reigns[t].log, i)
  }

  /** What may yet be committed in a term, every later leader holds. */
  ghost predicate Complete(cl: Cluster, ns: Nodes, h: History) {
    forall t: nat, t': nat, i: nat | t' in h.reigns && t < t' && Choosable(cl, ns, h, t, i) ::
      Holds(h.reigns[t'].log, h.reigns[t].log, i)
  }

  ghost predicate ArgsOk(h: History, args: AppendArgs) {
    var last := args.prevIndex + |args.entries|;
    && args.term in h.reigns
    && last <= |h.reigns[args.term].log|
    && args.entries == h.reigns[args.term].log[args.prevIndex..last]
    && (args.prevIndex > 0 ==> h.reigns[args.term].log[args.prevIndex - 1].term == args.prevTerm)
    && args.leaderCommit <= last
    && Backed(h, h.reigns[args.term].log, args.leaderCommit, args.term)
  }

  ghost predicate MessageOk(ns: Nodes, h: History, msg: Message) {
    match msg
    case VoteRequest(vargs) =>
      vargs.candidate in ns &&
      var c := ns[vargs.candidate];
      && vargs.term <= c.kept.term
      && (c.role.Candidate? && c.term == vargs.term ==> vargs.lastIndex == |c.log| && vargs.lastTerm == LastTerm(c.log))
    case VoteResponse(candidate, electionTerm, vreply) =>
      vreply.granted ==> vreply.term == electionTerm && Voted(h, vreply.voter, vreply.term, candidate)
    case AppendRequest(_, _, args) => ArgsOk(h, args)
    case AppendResponse(from, _, args, reply) =>
      && ArgsOk(h, args)
      && (reply.success ==> Acked(h, from, args.term, args.prevIndex + |args.entries|))
  }

  ghost predicate MessagesOk(ns: Nodes, h: History, msgs: set<Message>) {
    forall msg | msg in msgs :: MessageOk(ns, h, msg)
  }

  ghost predicate Inv(cl: Cluster, s: State, h: History) {
    && NodesOk(cl, s.nodes, h)
    && BallotsOk(s.nodes, h)
    && ReignsOk(cl, s.nodes, h)
    && AcksOk(s.nodes, h)
    && HeldOk(cl, s.nodes, h)
    && VotesKeep(cl, s.nodes, h)
    && Complete(cl, s.nodes, h)
    && MessagesOk(s.nodes, h, s.msgs)
  }

  // ---- Histories only grow ----

  ghost predicate Grows(h: History, h': History) {
    && (forall b | b in h.ballots :: b in h'.ballots && h'.ballots[b] == h.ballots[b])
    && (forall t | t in h.reigns ::
         && t in h'.reigns
         && h'.reigns[t].leader == h.reigns[t].leader
         && h'.reigns[t].electors == h.reigns[t].electors
         && h.reigns[t].commit <= h'.reigns[t].commit
         && h.reigns[t].log <= h'.reigns[t].log)
    && (forall a | a in h.acks :: a in h'.acks && h.acks[a] <= h'.acks[a])
  }
}
