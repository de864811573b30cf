/** What a leader commits: not only nothing else, but all that it may
    (advanceCommitIndexLocked in internal/raft/node_replication.go). */
module RaftCommit {
  import opened Types
  import opened Quorum
  import opened RaftStep

  /** An entry of the leader's term that, by its own account, is on a quorum. */
  predicate Committable(site: Site, n: Node, index: nat) {
    && 1 <= index <= |n.log| && n.log[index - 1].term == n.term
    && HasQuorum(site.membership, {site.id} + set p | p in site.peers && p in n.matched && n.matched[p] >= index)
  }

  lemma CommitsExactly(site: Site, n: Node, index: nat)
    ensures Commits(site, n, index) <==> Committable(site, n, index)
  {
    hide HasQuorum;
    if index >= 1 {
      assert Replicated(site, n, index) ==
             {site.id} + set p | p in site.peers && p in n.matched && n.matched[p] >= index;
    }
  }

  /** The scan finds the greatest committable index from where it begins. */
  lemma {:induction false} ScanGreatest(site: Site, n: Node, commit: nat, index: nat)
    requires commit < index
    ensures var c := Scan(site, n, commit, index);
            && (c == commit || (index <= c && Committable(site, n, c)))
            && forall i | index <= i <= |n.log| && Committable(site, n, i) :: i <= c
    decreases |n.log| + 1 - index
  {
    hide Commits, Committable;
    if index <= |n.log| {
      CommitsExactly(site, n, index);
      ScanGreatest(site, n, if Commits(site, n, index) then index else commit, index + 1);
    }
  }

  /** Nothing that may be committed is left behind the commit index. */
  ghost predicate CommittedAll(site: Site, n: Node) {
    forall i | n.commit < i <= |n.log| :: !Committable(site, n, i)
  }

  /** A leader's commit index becomes the greatest committable one, if that is past it. */
  lemma AdvancesExactly(site: Site, n: Node)
    requires n.role.Leader?
    ensures var n' := AdvanceCommit(site, n);
            && n' == n.(commit := n'.commit) && n.commit <= n'.commit
            && (n'.commit == n.commit || Committable(site, n, n'.commit))
            && CommittedAll(site, n')
  {
    hide Committable;
    ScanGreatest(site, n, n.commit, n.commit + 1);
    var n' := AdvanceCommit(site, n);
    forall i | n'.commit < i <= |n'.log| ensures !Committable(site, n', i) {
      SameAccount(site, n, n', i);
    }
  }

  lemma SameAccount(site: Site, n: Node, n': Node, index: nat)
    requires n'.log == n.log && n'.term == n.term && n'.matched == n.matched
    ensures Committable(site, n', index) <==> Committable(site, n, index)
  {
  }

  /** So after every accepted proposal and every confirmed batch. */
  lemma ProposalCommitsAll(site: Site, n: Node, data: seq<byte>)
    requires n.role.Leader?
    ensures var n' := Propose(site, n, data, true);
            && n'.log == n.log + [Entry(|n.log| + 1, n.term, data)] && n.commit <= n'.commit && CommittedAll(site, n')
            && n' == n.(log := n'.log, commit := n'.commit)
  {
    hide CommittedAll, AdvanceCommit, Committable;
    AdvancesExactly(site, n.(log := n.log + [Entry(|n.log| + 1, n.term, data)]));
  }

  lemma ConfirmationCommitsAll(site: Site, n: Node, peer: NodeID, args: AppendArgs, reply: AppendReply, durable: bool)
    requires n.role.Leader? && reply.term <= n.term == args.term && reply.success && args.entries != []
    ensures var n' := HandleAppendReply(site, n, peer, args, reply, durable);
            var last := args.entries[|args.entries| - 1].index;
            && CommittedAll(site, n') && n.commit <= n'.commit && At(n'.matched, peer) >= last
            && (if last > At(n.matched, peer)
                then n'.matched == n.matched[peer := last] && n'.next == n.next[peer := last + 1]
                else n'.matched == n.matched && n'.next == n.next)
            && n' == n.(matched := n'.matched, next := n'.next, commit := n'.commit)
  {
    hide CommittedAll, AdvanceCommit, Committable;
    AdvancesExactly(site, NoteReplicated(n, peer, args.entries[|args.entries| - 1].index));
  }

  /** A log that ends in the leader's term and is on a quorum is committed to its end. */
  lemma AllCommitted(site: Site, n: Node)
    requires CommittedAll(site, n) && n.commit <= |n.log| && Committable(site, n, |n.log|)
    ensures n.commit == |n.log|
  {
    hide Committable;
  }
}
