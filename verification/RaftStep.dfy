/** What each locked handler of internal/raft does to one node, as a function of
    the node's state.

    `Node.log` is the whole log since index 1. `base` is the snapshot boundary:
    the entries up to `base` have been dropped and, of those, only the term at
    `base` itself can still be read (internal/raft/log.go). A boolean argument
    such as `durable` says whether the storage calls of that handler succeed.

    `Node.kept` is what no crash can take away: the term and vote last covered by
    a successful sync, the index of the snapshot in the storage, and the index up
    to which the storage has dropped entries. After a restart the term in memory
    may be one that is in the file but not yet synced, and is then ahead of it.

    The leader hint, the timers and the counters of the source carry no safety
    content and are left out. */
module RaftStep {
  import opened Types
  import opened Quorum

  datatype Role = Follower | Candidate | Leader

  datatype Kept = Kept(term: nat, votedFor: NodeID, boundary: nat, dropped: nat)

  datatype Node = Node(
    term: nat,
    votedFor: NodeID,
    role: Role,
    log: seq<Entry>,
    base: nat,
    applied: nat,
    commit: nat,
    votes: set<NodeID>,
    next: map<NodeID, nat>,
    matched: map<NodeID, nat>,
    kept: Kept)

  /** What a node knows about its surroundings: its own ID, the membership it
      decides quorums by, and the peers it talks to. */
  datatype Site = Site(id: NodeID, membership: Membership, peers: seq<NodeID>)

  datatype VoteArgs = VoteArgs(term: nat, candidate: NodeID, lastIndex: nat, lastTerm: nat)
  datatype VoteReply = VoteReply(term: nat, voter: NodeID, granted: bool)
  datatype AppendArgs = AppendArgs(
    term: nat, leader: NodeID, prevIndex: nat, prevTerm: nat, entries: seq<Entry>, leaderCommit: nat)
  datatype AppendReply = AppendReply(term: nat, success: bool)

  // ---- Reading the log ----

  function LastTerm(log: seq<Entry>): nat {
    if log == [] then 0 else log[|log| - 1].term
  }

  /** Log.Get finds an entry at `index`. */
  predicate Readable(n: Node, index: nat) {
    1 <= index <= |n.log| && n.base <= index
  }

  /** What Log.Get returns there: the boundary entry has lost its data. */
  function Fetch(n: Node, index: nat): Entry
    requires Readable(n, index)
  {
    if index == n.base then Entry(index, n.log[index - 1].term, []) else n.log[index - 1]
  }

  predicate UpToDate(log: seq<Entry>, lastIndex: nat, lastTerm: nat) {
    if lastTerm != LastTerm(log) then lastTerm > LastTerm(log) else lastIndex >= |log|
  }

  // ---- Elections (node_election.go, node_role.go) ----

  /** A sync covers the state of the node as it is in memory. */
  function Synced(n: Node): Kept {
    n.kept.(term := n.term, votedFor := n.votedFor)
  }

  function AdoptTerm(n: Node, term: nat): Node {
    n.(term := term, votedFor := [], role := Follower, kept := n.kept.(term := term, votedFor := []))
  }

  function StartElection(site: Site, n: Node, durable: bool): Node {
    if !IsVoter(site.membership, site.id) || !durable then n
    else n.(term := n.term + 1, votedFor := site.id, role := Candidate, votes := {site.id},
             kept := n.kept.(term := n.term + 1, votedFor := site.id))
  }

  predicate Grants(site: Site, n: Node, args: VoteArgs) {
    && IsVoter(site.membership, args.candidate)
    && (n.votedFor == [] || n.votedFor == args.candidate)
    && UpToDate(n.log, args.lastIndex, args.lastTerm)
  }

  function Vote(n: Node, candidate: NodeID): Node {
    n.(votedFor := candidate, kept := n.kept.(term := n.term, votedFor := candidate))
  }

  /** `adopted` and `voted` are the outcomes of the two possible saves. */
  function RequestVote(site: Site, n: Node, args: VoteArgs, adopted: bool, voted: bool): (Node, VoteReply) {
    if args.term < n.term || (args.term > n.term && !adopted) then
      (n, VoteReply(n.term, site.id, false))
    else
      var a := if args.term > n.term then AdoptTerm(n, args.term) else n;
      if !Grants(site, a, args) || !voted then
        (a, VoteReply(a.term, site.id, false))
      else
        (Vote(a, args.candidate), VoteReply(a.term, site.id, true))
  }

  function HandleVoteReply(site: Site, n: Node, electionTerm: nat, reply: VoteReply, durable: bool): Node {
    if reply.term > n.term then
      if durable then AdoptTerm(n, reply.term).(votes := {}) else n
    else if n.role.Candidate? && electionTerm == n.term && reply.term == electionTerm && reply.granted &&
            IsVoter(site.membership, reply.voter) then
      n.(votes := n.votes + {reply.voter})
    else n
  }

  function Filled(m: map<NodeID, nat>, peers: seq<NodeID>, value: nat): map<NodeID, nat> {
    m + map p | p in peers :: value
  }

  function BecomeLeader(site: Site, n: Node): Node {
    n.(role := Leader, next := Filled(n.next, site.peers, |n.log| + 1), matched := Filled(n.matched, site.peers, 0))
  }

  function TryBecomeLeader(site: Site, n: Node): Node {
    if n.role.Candidate? && HasQuorum(site.membership, n.votes) then BecomeLeader(site, n) else n
  }

  // ---- The leader's side of replication (node_replication.go) ----

  /** A missing map entry reads as zero. */
  function At(m: map<NodeID, nat>, id: NodeID): nat {
    if id in m then m[id] else 0
  }

  function Replicated(site: Site, n: Node, index: nat): set<NodeID> {
    {site.id} + set p | p in site.peers && At(n.matched, p) >= index
  }

  /** `index` may be committed by this leader: an entry of its own term, on a quorum. */
  predicate Commits(site: Site, n: Node, index: nat) {
    && 1 <= index <= |n.log|
    && n.log[index - 1].term == n.term
    && HasQuorum(site.membership, Replicated(site, n, index))
  }

  /** The scan of advanceCommitIndexLocked from `index` upwards. */
  function Scan(site: Site, n: Node, commit: nat, index: nat): nat
    decreases |n.log| + 1 - index
  {
    if index > |n.log| then commit
    else Scan(site, n, if Commits(site, n, index) then index else commit, index + 1)
  }

  function AdvanceCommit(site: Site, n: Node): Node {
    if !n.role.Leader? then n else n.(commit := Scan(site, n, n.commit, n.commit + 1))
  }

  function Propose(site: Site, n: Node, data: seq<byte>, durable: bool): Node {
    if !n.role.Leader? || !durable then n
    else AdvanceCommit(site, n.(log := n.log + [Entry(|n.log| + 1, n.term, data)]))
  }

  /** The entries from `next` to the end of the log, as Log.Get returns them. */
  function Batch(n: Node, next: nat): seq<Entry>
    requires next <= |n.log| ==> Readable(n, next)
  {
    if next > |n.log| then [] else seq(|n.log| + 1 - next, k requires 0 <= k < |n.log| + 1 - next => Fetch(n, next + k))
  }

  function BuildAppend(site: Site, n: Node, peer: NodeID): Option<AppendArgs> {
    if !n.role.Leader? || peer !in n.next then None
    else
      var next := n.next[peer];
      var prev := if next > 1 then next - 1 else 0;
      if (next > 1 && !Readable(n, prev)) || next == 0 || (next <= |n.log| && !Readable(n, next)) then None
      else
        Some(AppendArgs(n.term, site.id, prev, if prev > 0 then Fetch(n, prev).term else 0, Batch(n, next), n.commit))
  }

  function HandleAppendReply(site: Site, n: Node, peer: NodeID, args: AppendArgs, reply: AppendReply,
      durable: bool): Node {
    if reply.term > n.term then
      if durable then AdoptTerm(n, reply.term) else n
    else if !n.role.Leader? || args.term != n.term then n
    else if !reply.success then
      if At(n.next, peer) > 1 then n.(next := n.next[peer := n.next[peer] - 1]) else n
    else if args.entries == [] then n
    else AdvanceCommit(site, NoteReplicated(n, peer, args.entries[|args.entries| - 1].index))
  }

  function NoteReplicated(n: Node, peer: NodeID, index: nat): Node {
    if index > At(n.matched, peer) then
      n.(matched := n.matched[peer := index], next := n.next[peer := index + 1])
    else n
  }

  // ---- The follower's side of replication ----

  /** The entry is already in the log with the same term. */
  predicate Known(n: Node, e: Entry) {
    Readable(n, e.index) && n.log[e.index - 1].term == e.term
  }

  /** The first position of `entries`, from `i`, that the log lacks or contradicts. */
  function FirstNew(n: Node, entries: seq<Entry>, i: nat): (f: nat)
    requires i <= |entries|
    ensures i <= f <= |entries|
    ensures forall k | i <= k < f :: Known(n, entries[k])
    ensures f < |entries| ==> !Known(n, entries[f])
    decreases |entries| - i
  {
    if i == |entries| || !Known(n, entries[i]) then i else FirstNew(n, entries, i + 1)
  }

  /** reconcileReplicatedEntriesLocked: the new log, or `None` when the storage
      layer or Log.Append refuses the batch. */
  function Reconcile(n: Node, entries: seq<Entry>): Option<seq<Entry>> {
    var f := FirstNew(n, entries, 0);
    if f == |entries| then Some(n.log)
    else
      var tail := entries[f..];
      var start := tail[0].index;
      if start == 0 || !Consecutive(tail, start) then None
      else if Readable(n, start) then
        if start <= n.kept.boundary then None else Some(n.log[..start - 1] + tail)
      else if start == |n.log| + 1 then Some(n.log + tail)
      else None
  }

  predicate PrevMatches(n: Node, args: AppendArgs) {
    args.prevIndex > 0 ==> Readable(n, args.prevIndex) && n.log[args.prevIndex - 1].term == args.prevTerm
  }

  /** Accepting a batch whose log is `log`: publish it and follow the leader's
      commit index. A log that changes has been written and synced. */
  function AcceptLog(n: Node, log: seq<Entry>, leaderCommit: nat): Node {
    n.(log := log,
       commit := if leaderCommit <= n.commit then n.commit else if leaderCommit < |log| then leaderCommit else |log|,
       kept := if log == n.log then n.kept else Synced(n))
  }

  /** `adopted` and `logged` are the outcomes of saving the term and the entries. */
  function AppendEntries(n: Node, args: AppendArgs, adopted: bool, logged: bool): (Node, AppendReply) {
    if args.term < n.term || (args.term > n.term && !adopted) then
      (n, AppendReply(n.term, false))
    else
      var a := if args.term > n.term then AdoptTerm(n, args.term) else n;
      if !PrevMatches(a, args) then (a, AppendReply(a.term, false))
      else
        var b := a.(role := Follower);
        var log := Reconcile(b, args.entries);
        if log.None? || (FirstNew(b, args.entries, 0) < |args.entries| && !logged) then (b, AppendReply(b.term, false))
        else (AcceptLog(b, log.value, args.leaderCommit), AppendReply(b.term, true))
  }

  // ---- Snapshots, application, restart ----

  function StepDown(n: Node): Node {
    n.(role := Follower)
  }

  /** One round of applyCommitted. */
  function ApplyNext(n: Node): Node {
    if n.applied < n.commit then n.(applied := n.applied + 1) else n
  }

  /** CreateSnapshot accepts `index`. */
  predicate MaySnapshot(n: Node, index: nat) {
    index <= n.applied && index <= n.commit && Readable(n, index)
  }

  /** CreateSnapshot: saved and synced, and if `compacted` also cut from the logs. */
  function Compact(n: Node, index: nat, compacted: bool): Node {
    if !MaySnapshot(n, index) then n
    else if !compacted then n.(kept := Synced(n).(boundary := index))
    else n.(base := index, kept := Synced(n).(boundary := index, dropped := index))
  }

  /** NewRaftNodeWithStorage succeeds: entries are re-appended from index 1
      before the boundary is known, so a compacted log with entries left is refused. */
  predicate MayRestart(n: Node) {
    n.kept.dropped == 0 || n.kept.dropped == |n.log|
  }

  function Restart(n: Node, term: nat, votedFor: NodeID): Node {
    var base := n.kept.boundary;
    Node(term, votedFor, Follower, n.log, base, base, base, {}, map[], map[], n.kept)
  }
}
