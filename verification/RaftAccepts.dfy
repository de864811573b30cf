/** The follower's move keeps the invariant: reconciling its log with a batch of
    the current leader and following the leader's commit index. */
module RaftAccepts {
  import opened Types
  import opened RaftStep
  import opened RaftProtocol
  import opened RaftInvariant
  import opened RaftGrowth
  import opened RaftLeads

  // ---- What reconciliation computes ----

  /** The log that results from agreeing with `lead` up to `m`: nothing is cut
      unless something disagrees. */
  function Merge(log: seq<Entry>, lead: seq<Entry>, m: nat): seq<Entry>
    requires m <= |lead|
  {
    if Holds(log, lead, m) then log else lead[..m]
  }

  /** `args` carries the entries of `lead` from `prevIndex` on, with the term before them. */
  predicate Carries(args: AppendArgs, lead: seq<Entry>) {
    var last := args.prevIndex + |args.entries|;
    && last <= |lead|
    && args.entries == lead[args.prevIndex..last]
    && (args.prevIndex > 0 ==> lead[args.prevIndex - 1].term == args.prevTerm)
  }

  /** Where two logs have the same term, they are the same up to there. */
  ghost predicate Matching(a: seq<Entry>, b: seq<Entry>) {
    forall i | 1 <= i <= |a| && i <= |b| && a[i - 1].term == b[i - 1].term :: Holds(a, b, i)
  }

  /** The first `FirstNew` entries of a batch are already in place. */
  lemma KnownHolds(n: Node, args: AppendArgs, lead: seq<Entry>)
    requires Matching(n.log, lead) && Consecutive(lead, 1) && Carries(args, lead) && PrevMatches(n, args)
    ensures Holds(n.log, lead, args.prevIndex + FirstNew(n, args.entries, 0))
  {
    var f := FirstNew(n, args.entries, 0);
    var i := args.prevIndex + f;
    if f > 0 {
      assert Known(n, args.entries[f - 1]);
      assert args.entries[f - 1] == lead[i - 1];
    }
  }

  /** Cutting at the first disagreement and appending the rest gives the leader's prefix. */
  lemma CutAndAppend(log: seq<Entry>, lead: seq<Entry>, at: nat, last: nat)
    requires Holds(log, lead, at) && at < last <= |lead|
    requires at < |log| ==> log[at] != lead[at]
    ensures log[..at] + lead[at..last] == Merge(log, lead, last)
  {
    if Holds(log, lead, last) {
      HoldsAt(log, lead, last, at);
    }
  }

  /** What reconciliation does with a batch that has something new in it. */
  lemma ReconcileTail(n: Node, entries: seq<Entry>)
    requires FirstNew(n, entries, 0) < |entries| && Reconcile(n, entries).Some?
    ensures var f := FirstNew(n, entries, 0);
            && 1 <= entries[f].index <= |n.log| + 1
            && Reconcile(n, entries).value == n.log[..entries[f].index - 1] + entries[f..]
            && (entries[f].index <= |n.log| ==> n.log[entries[f].index - 1].term != entries[f].term)
  {
    hide Consecutive;
    var f := FirstNew(n, entries, 0);
    assert entries[f..][0] == entries[f];
    if !Readable(n, entries[f].index) {
      assert n.log[..|n.log|] == n.log;
    }
  }

  /** An accepted batch leaves the follower with exactly the merged log. */
  lemma ReconcileMerges(n: Node, args: AppendArgs, lead: seq<Entry>)
    requires Matching(n.log, lead) && Consecutive(lead, 1) && Carries(args, lead) && PrevMatches(n, args)
    requires Reconcile(n, args.entries).Some?
    ensures Reconcile(n, args.entries).value == Merge(n.log, lead, args.prevIndex + |args.entries|)
  {
    hide Matching, Holds, Merge, PrevMatches, FirstNew, Consecutive;
    var f := FirstNew(n, args.entries, 0);
    var at := args.prevIndex + f;
    var last := args.prevIndex + |args.entries|;
    KnownHolds(n, args, lead);
    if f < |args.entries| {
      hide Reconcile;
      ReconcileTail(n, args.entries);
      CarriedFrom(args, lead, f);
      CutAndAppend(n.log, lead, at, last);
    } else {
      MergeIdle(n.log, lead, last);
    }
  }

  lemma CarriedFrom(args: AppendArgs, lead: seq<Entry>, f: nat)
    requires Consecutive(lead, 1) && Carries(args, lead) && f < |args.entries|
    ensures var at := args.prevIndex + f;
            && args.entries[f] == lead[at] && lead[at].index == at + 1
            && args.entries[f..] == lead[at..args.prevIndex + |args.entries|]
  {
  }

  lemma HoldsLength(log: seq<Entry>, lead: seq<Entry>, i: nat)
    requires Holds(log, lead, i)
    ensures i <= |log| && i <= |lead|
  {
  }

  lemma MergeIdle(log: seq<Entry>, lead: seq<Entry>, m: nat)
    requires Holds(log, lead, m)
    ensures m <= |lead| && Merge(log, lead, m) == log
  {
  }

  /** A batch that follows on the boundary is never refused. */
  lemma ReconcileAccepts(n: Node, args: AppendArgs, lead: seq<Entry>)
    requires Matching(n.log, lead) && Consecutive(lead, 1) && Carries(args, lead) && PrevMatches(n, args)
    requires n.base <= n.kept.boundary <= args.prevIndex
    ensures Reconcile(n, args.entries).Some?
  {
    var f := FirstNew(n, args.entries, 0);
    KnownHolds(n, args, lead);
    if f < |args.entries| {
      assert args.entries[f] == lead[args.prevIndex + f];
      assert Consecutive(args.entries[f..], args.entries[f].index);
    }
  }

  /** Exactly when a batch of a leader is accepted, with its saves done: it is not
      from an older term, and the entry before it is there, or only its term is. The
      node then follows in the leader's term. */
  lemma AcceptedExactly(n: Node, args: AppendArgs, lead: seq<Entry>)
    requires Matching(n.log, lead) && Consecutive(lead, 1) && Carries(args, lead)
    requires n.base <= n.kept.boundary <= args.prevIndex
    ensures var (n', reply) := AppendEntries(n, args, true, true);
            && (reply.success <==>
                && n.term <= args.term
                && (args.prevIndex == 0 ||
                    (args.prevIndex <= |n.log| && n.log[args.prevIndex - 1].term == args.prevTerm)))
            && reply.term == n'.term == (if n.term < args.term then args.term else n.term)
            && (reply.success ==> n'.role == Follower)
            && (!reply.success ==> n'.log == n.log && n'.commit == n.commit)
  {
    hide Matching, Reconcile, Consecutive, FirstNew, Carries;
    var a := if args.term > n.term then AdoptTerm(n, args.term) else n;
    var b := a.(role := Follower);
    if n.term <= args.term && PrevMatches(b, args) {
      ReconcileAccepts(b, args, lead);
    }
  }

  /** Whatever both the old log and the leader's hold, the merged log holds. */
  lemma MergeKeeps(log: seq<Entry>, lead: seq<Entry>, m: nat, other: seq<Entry>, i: nat)
    requires m <= |lead| && Holds(log, other, i) && Holds(lead, other, i)
    ensures Holds(Merge(log, lead, m), other, i)
  {
    if !Holds(log, lead, m) {
      if m <= i {
        HoldsShorter(log, other, i, m);
        HoldsShorter(lead, other, i, m);
        assert false;
      }
      assert lead[..m][..i] == lead[..i];
    }
  }

  lemma MergeAgrees(log: seq<Entry>, lead: seq<Entry>, m: nat)
    requires m <= |lead|
    ensures Holds(Merge(log, lead, m), lead, m)
  {
    assert lead[..m][..m] == lead[..m];
  }

  // ---- The move ----

  function Confirm(h: History, id: NodeID, t: nat, i: nat): History {
    var slot := Slot(id, t);
    h.(acks := h.acks[slot := if slot in h.acks && i <= h.acks[slot] then h.acks[slot] else i])
  }

  /** The situation of an acceptance: `id` is a follower in the leader's term and takes over `log'`. */
  ghost predicate Accepting(cl: Cluster, ns: Nodes, h: History, id: NodeID, args: AppendArgs, n': Node) {
    && id in ns && NodeOk(cl, h, id, ns[id]) && ns[id].term == args.term && ns[id].role.Follower?
    && ArgsOk(h, args)
    && n' == AcceptLog(ns[id], Merge(ns[id].log, h.reigns[args.term].log, args.prevIndex + |args.entries|),
        args.leaderCommit)
  }

  function Last(args: AppendArgs): nat {
    args.prevIndex + |args.entries|
  }

  /** Rooted logs match each other. */
  lemma RootedMatch(h: History, a: seq<Entry>, b: seq<Entry>)
    requires Rooted(h, a) && Rooted(h, b)
    ensures Matching(a, b)
  {
    forall i | 1 <= i <= |a| && i <= |b| && a[i - 1].term == b[i - 1].term ensures Holds(a, b, i) {
      SameTermSamePrefix(h, a, b, i);
    }
  }

  /** A committed prefix that a node holds is also in the current leader's log. */
  lemma LeaderHasCommitted(cl: Cluster, ns: Nodes, h: History, t: nat, t': nat, k: nat)
    requires ns.Keys == cl.ids && ReignsOk(cl, ns, h) && Complete(cl, ns, h)
    requires t in h.reigns && t' in h.reigns && t <= t' && 0 < k <= h.reigns[t].commit
    ensures Holds(h.reigns[t'].log, h.reigns[t].log, k)
  {
    assert ReignOk(cl, ns, h, t);
    if t == t' {
      assert Own(h, t, h.reigns[t].commit);
    } else {
      CommittedIsChoosable(cl, ns, h, t, h.reigns[t].commit);
      HoldsShorter(h.reigns[t'].log, h.reigns[t].log, h.reigns[t].commit, k);
    }
  }

  /** The follower's commit index never runs into unverified entries: it stays or
      becomes exactly the leader's, and either way the prefix is a committed one. */
  lemma AcceptCommit(cl: Cluster, ns: Nodes, h: History, id: NodeID, args: AppendArgs, n': Node)
    requires ns.Keys == cl.ids && ReignsOk(cl, ns, h) && Complete(cl, ns, h) && Accepting(cl, ns, h, id, args, n')
    ensures Backed(h, n'.log, n'.commit, n'.term) && n'.commit <= |n'.log|
    ensures n'.commit == if args.leaderCommit <= ns[id].commit then ns[id].commit else args.leaderCommit
  {
    hide Complete, ReignsOk, Rooted, TermsUpTo;
    var n, lead := ns[id], h.reigns[args.term].log;
    MergeAgrees(n.log, lead, Last(args));
    if args.leaderCommit > n.commit {
      AcceptLeaderCommit(h, args, n'.log);
    } else if n.commit > 0 {
      var t: nat :| BackedBy(h, n.log, n.commit, t) && t <= n.term;
      LeaderHasCommitted(cl, ns, h, t, args.term, n.commit);
      MergeKeeps(n.log, lead, Last(args), h.reigns[t].log, n.commit);
      assert BackedBy(h, n'.log, n.commit, t);
    }
  }

  lemma AcceptLeaderCommit(h: History, args: AppendArgs, log: seq<Entry>)
    requires ArgsOk(h, args) && Holds(log, h.reigns[args.term].log, Last(args)) && args.leaderCommit > 0
    ensures Backed(h, log, args.leaderCommit, args.term)
  {
    var lead, k := h.reigns[args.term].log, args.leaderCommit;
    var t: nat :| BackedBy(h, lead, k, t) && t <= args.term;
    HoldsShorter(log, lead, Last(args), k);
    assert BackedBy(h, log, k, t);
  }

  /** What the stored snapshot covers stays in the log. */
  lemma BoundaryStays(cl: Cluster, ns: Nodes, h: History, id: NodeID, args: AppendArgs, n': Node)
    requires ns.Keys == cl.ids && ReignsOk(cl, ns, h) && Complete(cl, ns, h) && Accepting(cl, ns, h, id, args, n')
    ensures Backed(h, n'.log, n'.kept.boundary, n'.kept.term)
  {
    hide Complete, ReignsOk, Rooted, TermsUpTo;
    var n, k := ns[id], ns[id].kept.boundary;
    if k > 0 {
      var t: nat :| BackedBy(h, n.log, k, t) && t <= n.kept.term;
      LeaderHasCommitted(cl, ns, h, t, args.term, k);
      MergeKeeps(n.log, h.reigns[args.term].log, Last(args), h.reigns[t].log, k);
      assert BackedBy(h, n'.log, k, t);
    }
  }

  lemma AcceptNode(cl: Cluster, ns: Nodes, h: History, id: NodeID, args: AppendArgs, n': Node)
    requires ns.Keys == cl.ids && ReignsOk(cl, ns, h) && Complete(cl, ns, h) && Accepting(cl, ns, h, id, args, n')
    ensures NodeOk(cl, h, id, n') && MovesOn(ns[id], n')
  {
    hide Complete, ReignsOk, Backed, Rooted;
    AcceptCommit(cl, ns, h, id, args, n');
    ReignAt(cl, ns, h, args.term);
    RootedPrefix(h, h.reigns[args.term].log, Last(args));
    BoundaryStays(cl, ns, h, id, args, n');
  }

  lemma ConfirmGrows(cl: Cluster, h: History, id: NodeID, t: nat, i: nat, n: Node)
    requires NodeOk(cl, h, id, n) && n.role.Follower?
    ensures Grows(h, Confirm(h, id, t, i))
    ensures NodeOk(cl, Confirm(h, id, t, i), id, n)
    ensures Acked(Confirm(h, id, t, i), id, t, i)
  {
    NodeEvolves(cl, h, Confirm(h, id, t, i), id, n);
  }

  lemma ConfirmChoosable(cl: Cluster, ns: Nodes, h: History, id: NodeID, i: nat, ns': Nodes)
    requires id in ns && ns[id].kept.term <= ns[id].term && Evolves(ns, ns') && Grows(h, Confirm(h, id, ns[id].term, i))
    ensures forall u: nat, j: nat | Choosable(cl, ns', Confirm(h, id, ns[id].term, i), u, j) ::
              Own(h, u, j) && Choosable(cl, ns, h, u, j)
  {
    var h' := Confirm(h, id, ns[id].term, i);
    forall u: nat, j: nat | Choosable(cl, ns', h', u, j) ensures Own(h, u, j) && Choosable(cl, ns, h, u, j) {
      assert Own(h', u, j) && Own(h, u, j);
      ChoosableShrinks(cl, ns, h, ns', h', u, j);
    }
  }

  /** The follower still holds all it has confirmed before. */
  lemma AcceptHeldBefore(cl: Cluster, ns: Nodes, h: History, id: NodeID, args: AppendArgs, n': Node, t: nat, i: nat)
    requires AcksOk(ns, h) && HeldOk(cl, ns, h) && Complete(cl, ns, h) && Accepting(cl, ns, h, id, args, n')
    requires t in h.reigns && h.reigns[t].leader in ns && t <= ns[h.reigns[t].leader].kept.term
    requires Acked(h, id, t, i) && Choosable(cl, ns, h, t, i)
    ensures Holds(n'.log, h.reigns[t].log, i)
  {
    assert t <= ns[id].kept.term <= args.term;
    assert Holds(ns[id].log, h.reigns[t].log, i);
    MergeKeeps(ns[id].log, h.reigns[args.term].log, Last(args), h.reigns[t].log, i);
  }

  lemma AcceptHeld(cl: Cluster, ns: Nodes, h: History, id: NodeID, args: AppendArgs, n': Node, ns': Nodes)
    requires ReignsOk(cl, ns, h) && AcksOk(ns, h) && HeldOk(cl, ns, h) && Complete(cl, ns, h)
    requires Accepting(cl, ns, h, id, args, n')
    requires ns' == ns[id := n'] && Evolves(ns, ns') && Grows(h, Confirm(h, id, args.term, Last(args)))
    ensures HeldOk(cl, ns', Confirm(h, id, args.term, Last(args)))
  {
    hide Complete, ReignsOk, AcksOk, Rooted, NodeOk, Backed;
    var h' := Confirm(h, id, args.term, Last(args));
    KeptBelow(cl, h, id, ns[id]);
    ConfirmChoosable(cl, ns, h, id, Last(args), ns');
    forall q: NodeID, t: nat, i: nat | q in ns' && Acked(h', q, t, i) && Choosable(cl, ns', h', t, i)
      ensures Holds(ns'[q].log, h'.reigns[t].log, i)
    {
      if Acked(h, q, t, i) {
        if q == id {
          ReignAt(cl, ns, h, t);
          AcceptHeldBefore(cl, ns, h, id, args, n', t, i);
        }
      } else {
        MergeAgrees(ns[id].log, h.reigns[t].log, Last(args));
        HoldsShorter(n'.log, h.reigns[t].log, Last(args), i);
      }
    }
  }

  lemma AcceptVotes(cl: Cluster, ns: Nodes, h: History, id: NodeID, i: nat, n': Node, ns': Nodes)
    requires BallotsOk(ns, h) && VotesKeep(cl, ns, h)
    requires id in ns && ns[id].kept.term <= ns[id].term && n'.role.Follower? && ns' == ns[id := n'] && Evolves(ns, ns')
    requires Grows(h, Confirm(h, id, ns[id].term, i))
    ensures VotesKeep(cl, ns', Confirm(h, id, ns[id].term, i))
  {
    var h' := Confirm(h, id, ns[id].term, i);
    ConfirmChoosable(cl, ns, h, id, i, ns');
    forall b: Slot, t: nat, j: nat |
      && b in h'.ballots
      && h'.ballots[b] in ns'
      && ns'[h'.ballots[b]].role.Candidate?
      && ns'[h'.ballots[b]].term == b.term
      && t < b.term
      && Acked(h', b.node, t, j)
      && Choosable(cl, ns', h', t, j)
      ensures Holds(ns'[h'.ballots[b]].log, h'.reigns[t].log, j)
    {
      assert b.term <= ns[b.node].kept.term;
      assert Acked(h, b.node, t, j);
    }
  }

  lemma AcceptCompletes(cl: Cluster, ns: Nodes, h: History, id: NodeID, i: nat, ns': Nodes)
    requires Complete(cl, ns, h) && id in ns && ns[id].kept.term <= ns[id].term
    requires Evolves(ns, ns') && Grows(h, Confirm(h, id, ns[id].term, i))
    ensures Complete(cl, ns', Confirm(h, id, ns[id].term, i))
  {
    ConfirmChoosable(cl, ns, h, id, i, ns');
  }

  lemma AcceptAcks(ns: Nodes, h: History, id: NodeID, i: nat, ns': Nodes)
    requires AcksOk(ns, h) && id in ns && Evolves(ns, ns')
    requires ns[id].term in h.reigns && i <= |h.reigns[ns[id].term].log|
    requires Holds(ns'[id].log, h.reigns[ns[id].term].log, i) && TermsUpTo(ns'[id].log, ns'[id].kept.term)
    ensures AcksOk(ns', Confirm(h, id, ns[id].term, i))
  {
    var h' := Confirm(h, id, ns[id].term, i);
    forall a: Slot, j: nat | a in h'.acks && a.node in ns' && j <= h'.acks[a] && Own(h', a.term, j)
      ensures a.term <= ns'[a.node].kept.term
    {
      assert Own(h, a.term, j) && MovesOn(ns[a.node], ns'[a.node]);
      if !(a in h.acks && j <= h.acks[a]) {
        HoldsAt(ns'[id].log, h.reigns[ns[id].term].log, i, j - 1);
      }
    }
  }

  lemma AcceptedLog(cl: Cluster, h: History, id: NodeID, args: AppendArgs, n: Node, n': Node)
    requires NodeOk(cl, h, id, n) && NodeOk(cl, h, id, n') && ArgsOk(h, args)
    requires n'.log == Merge(n.log, h.reigns[args.term].log, Last(args))
    ensures Holds(n'.log, h.reigns[args.term].log, Last(args)) && TermsUpTo(n'.log, n'.kept.term)
  {
    MergeAgrees(n.log, h.reigns[args.term].log, Last(args));
  }

  /** A follower accepts a batch of the leader of its term. */
  lemma AcceptKeeps(cl: Cluster, s: State, h: History, id: NodeID, args: AppendArgs, n': Node) returns (h': History)
    requires Inv(cl, s, h) && Accepting(cl, s.nodes, h, id, args, n')
    ensures Inv(cl, Put(s, id, n'), h') && Grows(h, h')
    ensures ArgsOk(h', args) && Acked(h', id, args.term, Last(args))
  {
    hide NodesOk, NodeOk, BallotsOk, ReignsOk, AcksOk, HeldOk, VotesKeep, Complete, MessagesOk, Grows, Evolves, Backed;
    var ns, ns' := s.nodes, s.nodes[id := n'];
    h' := Confirm(h, id, args.term, Last(args));
    NodeAt(cl, ns, h, id);
    AcceptNode(cl, ns, h, id, args, n');
    ConfirmGrows(cl, h, id, args.term, Last(args), n');
    EvolvesAt(ns, id, n');
    NodesCarry(cl, ns, h, id, n', h');
    BallotsEvolve(ns, h, ns');
    SameBallots(ns', h, h');
    ReignsCarry(cl, ns, h, ns', h');
    KeptBelow(cl, h, id, ns[id]);
    AcceptedLog(cl, h, id, args, ns[id], n');
    AcceptAcks(ns, h, id, Last(args), ns');
    AcceptHeld(cl, ns, h, id, args, n', ns');
    AcceptVotes(cl, ns, h, id, Last(args), n', ns');
    AcceptCompletes(cl, ns, h, id, Last(args), ns');
    MessagesEvolve(ns, h, ns', h', s.msgs);
    ArgsGrow(h, h', args);
  }
}
