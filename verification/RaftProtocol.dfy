/** The cluster: nodes, a network that loses, duplicates and reorders, and
    restarts. Messages are never taken out of the network, so one that is never
    delivered is a lost one and one that is delivered twice a duplicate. */
module RaftProtocol {
  import opened Types
  import opened Quorum
  import opened RaftStep

  /** A cluster with one membership, stable or joint, for the whole run. */
  datatype Cluster = Cluster(ids: set<NodeID>, membership: Membership, peers: map<NodeID, seq<NodeID>>)

  function SiteOf(cl: Cluster, id: NodeID): Site {
    Site(id, cl.membership, if id in cl.peers then cl.peers[id] else [])
  }

  /** A response carries the request it answers, as the caller of the RPC has
      both at hand. `call` tells the RPCs of a run apart. */
  datatype Message =
    | VoteRequest(vargs: VoteArgs)
    | VoteResponse(candidate: NodeID, electionTerm: nat, vreply: VoteReply)
    | AppendRequest(to: NodeID, call: nat, args: AppendArgs)
    | AppendResponse(from: NodeID, call: nat, args: AppendArgs, reply: AppendReply)

  datatype State = State(nodes: map<NodeID, Node>, msgs: set<Message>)

  datatype Step =
    | Campaign(id: NodeID, durable: bool)
    | SendVoteRequest(id: NodeID)
    | DeliverVoteRequest(id: NodeID, vargs: VoteArgs, adopted: bool, voted: bool)
    | DeliverVoteResponse(id: NodeID, electionTerm: nat, vreply: VoteReply, durable: bool)
    | WinElection(id: NodeID)
    | ClientPropose(id: NodeID, data: seq<byte>, durable: bool)
    | SendAppend(id: NodeID, peer: NodeID, call: nat)
    | SendProbe(id: NodeID, peer: NodeID, call: nat, readIndex: nat)
    | DeliverAppend(id: NodeID, call: nat, args: AppendArgs, adopted: bool, logged: bool)
    | DeliverAppendResponse(id: NodeID, peer: NodeID, call: nat, args: AppendArgs, reply: AppendReply, durable: bool)
    | LoseStorage(id: NodeID)
    | ApplyEntry(id: NodeID)
    | TakeSnapshot(id: NodeID, index: nat, compacted: bool)
    | Reboot(id: NodeID, term: nat, votedFor: NodeID)

  /** The probe of a ReadIndex call: no entries, the commit index read when the call began. */
  function Probe(site: Site, n: Node, peer: NodeID, readIndex: nat): Option<AppendArgs> {
    if !n.role.Leader? || peer !in n.next then None
    else
      var prev := if n.next[peer] > 1 then n.next[peer] - 1 else 0;
      if n.next[peer] > 1 && !Readable(n, prev) then None
      else Some(AppendArgs(n.term, site.id, prev, if prev > 0 then Fetch(n, prev).term else 0, [], readIndex))
  }

  /** A probe whose commit index is within what the message covers is sent as it
      is. Otherwise it counts as an acknowledgement of the term only: the commit
      index, on which the follower would act unsafely, is cut to the covered part. */
  function AckOnly(args: AppendArgs): AppendArgs {
    if args.leaderCommit <= args.prevIndex then args else args.(leaderCommit := args.prevIndex)
  }

  /** What a restart may find of the term and vote: what was last synced, or
      anything written after it, whether or not its save was reported as
      successful and whether or not it will survive the next crash. */
  predicate Succeeds(kept: Kept, term: nat, votedFor: NodeID) {
    term > kept.term || (term == kept.term && (kept.votedFor == [] || votedFor == kept.votedFor))
  }

  predicate Enabled(cl: Cluster, s: State, step: Step) {
    step.id in s.nodes &&
    var n := s.nodes[step.id];
    match step
    case SendVoteRequest(_) => n.role.Candidate? && IsVoter(cl.membership, step.id)
    case DeliverVoteRequest(_, vargs, _, _) => VoteRequest(vargs) in s.msgs
    case DeliverVoteResponse(id, electionTerm, vreply, _) => VoteResponse(id, electionTerm, vreply) in s.msgs
    case SendAppend(id, peer, _) =>
      && BuildAppend(SiteOf(cl, id), n, peer).Some?
      && n.next[peer] > n.base
    case SendProbe(id, peer, _, readIndex) =>
      readIndex <= n.commit && Probe(SiteOf(cl, id), n, peer, readIndex).Some?
    case DeliverAppend(id, call, args, _, _) => AppendRequest(id, call, args) in s.msgs
    case DeliverAppendResponse(id, peer, call, args, reply, _) =>
      AppendResponse(peer, call, args, reply) in s.msgs && args.leader == id
    case Reboot(_, term, votedFor) => MayRestart(n) && Succeeds(n.kept, term, votedFor)
    case TakeSnapshot(_, index, _) => n.kept.boundary <= index
    case _ => true
  }

  function Put(s: State, id: NodeID, n: Node): State {
    s.(nodes := s.nodes[id := n])
  }

  function Send(s: State, msg: Message): State {
    s.(msgs := s.msgs + {msg})
  }

  function After(cl: Cluster, s: State, step: Step): State
    requires Enabled(cl, s, step)
  {
    var n := s.nodes[step.id];
    var site := SiteOf(cl, step.id);
    match step
    case Campaign(id, durable) => Put(s, id, StartElection(site, n, durable))
    case SendVoteRequest(id) => Send(s, VoteRequest(VoteArgs(n.term, id, |n.log|, LastTerm(n.log))))
    case DeliverVoteRequest(id, vargs, adopted, voted) =>
      var (n', reply) := RequestVote(site, n, vargs, adopted, voted);
      Send(Put(s, id, n'), VoteResponse(vargs.candidate, vargs.term, reply))
    case DeliverVoteResponse(id, electionTerm, vreply, durable) =>
      Put(s, id, HandleVoteReply(site, n, electionTerm, vreply, durable))
    case WinElection(id) => Put(s, id, TryBecomeLeader(site, n))
    case ClientPropose(id, data, durable) => Put(s, id, Propose(site, n, data, durable))
    case SendAppend(id, peer, call) => Send(s, AppendRequest(peer, call, BuildAppend(site, n, peer).value))
    case SendProbe(id, peer, call, readIndex) =>
      Send(s, AppendRequest(peer, call, AckOnly(Probe(site, n, peer, readIndex).value)))
    case DeliverAppend(id, call, args, adopted, logged) =>
      var (n', reply) := AppendEntries(n, args, adopted, logged);
      Send(Put(s, id, n'), AppendResponse(id, call, args, reply))
    case DeliverAppendResponse(id, peer, call, args, reply, durable) =>
      Put(s, id, HandleAppendReply(site, n, peer, args, reply, durable))
    case LoseStorage(id) => Put(s, id, StepDown(n))
    case ApplyEntry(id) => Put(s, id, ApplyNext(n))
    case TakeSnapshot(id, index, compacted) => Put(s, id, Compact(n, index, compacted))
    case Reboot(id, term, votedFor) => Put(s, id, Restart(n, term, votedFor))
  }

  const FRESH := Node(0, [], Follower, [], 0, 0, 0, {}, map[], map[], Kept(0, [], 0, 0))

  ghost predicate Init(cl: Cluster, s: State) {
    s.nodes == (map id | id in cl.ids :: FRESH) && s.msgs == {}
  }

  ghost predicate Next(cl: Cluster, s: State, s': State) {
    exists step: Step :: Enabled(cl, s, step) && s' == After(cl, s, step)
  }

  /** A run of the cluster from its first start. */
  ghost predicate Run(cl: Cluster, r: seq<State>) {
    && r != []
    && Init(cl, r[0])
    && forall k | 0 <= k < |r| - 1 :: Next(cl, r[k], r[k + 1])
  }
}
