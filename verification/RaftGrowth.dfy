/** What survives when nodes move to later terms and the history grows. */
module RaftGrowth {
  import opened Types
  import opened Quorum
  import opened RaftStep
  import opened RaftProtocol
  import opened RaftInvariant

  // ---- Prefixes ----

  lemma HoldsShorter(log: seq<Entry>, lead: seq<Entry>, i: nat, j: nat)
    requires Holds(log, lead, i) && j <= i
    ensures Holds(log, lead, j)
  {
    assert log[..j] == log[..i][..j];
    assert lead[..j] == lead[..i][..j];
  }

  lemma HoldsLonger(log: seq<Entry>, lead: seq<Entry>, log': seq<Entry>, lead': seq<Entry>, i: nat)
    requires Holds(log, lead, i) && log <= log' && lead <= lead'
    ensures Holds(log', lead', i)
  {
    assert log'[..i] == log[..i];
    assert lead'[..i] == lead[..i];
  }

  lemma HoldsAt(log: seq<Entry>, lead: seq<Entry>, i: nat, k: nat)
    requires Holds(log, lead, i) && k < i
    ensures log[k] == lead[k]
  {
    assert log[k] == log[..i][k];
    assert lead[k] == lead[..i][k];
  }

  /** A prefix of a rooted log is rooted. */
  lemma RootedPrefix(h: History, log: seq<Entry>, i: nat)
    requires Rooted(h, log) && i <= |log|
    ensures Rooted(h, log[..i])
  {
    forall k | 0 <= k < |log[..i]|
      ensures log[..i][k].term in h.reigns && Holds(log[..i], h.reigns[log[..i][k].term].log, k + 1)
    {
      assert log[k].term in h.reigns;
      assert log[..i][..k + 1] == log[..k + 1];
    }
  }

  /** Two rooted logs with the same term at one position agree up to that position. */
  lemma SameTermSamePrefix(h: History, a: seq<Entry>, b: seq<Entry>, i: nat)
    requires Rooted(h, a) && Rooted(h, b)
    requires 1 <= i <= |a| && i <= |b| && a[i - 1].term == b[i - 1].term
    ensures Holds(a, b, i)
  {
    var t := a[i - 1].term;
    assert Holds(a, h.reigns[t].log, i);
    assert Holds(b, h.reigns[t].log, i);
  }

  // ---- A growing history ----

  lemma RootedGrows(h: History, h': History, log: seq<Entry>)
    requires Rooted(h, log) && Grows(h, h')
    ensures Rooted(h', log)
  {
    forall k | 0 <= k < |log|
      ensures log[k].term in h'.reigns && Holds(log, h'.reigns[log[k].term].log, k + 1)
    {
      HoldsLonger(log, h.reigns[log[k].term].log, log, h'.reigns[log[k].term].log, k + 1);
    }
  }

  lemma BackedGrows(h: History, h': History, log: seq<Entry>, log': seq<Entry>, k: nat, term: nat, term': nat)
    requires Backed(h, log, k, term) && Grows(h, h') && log <= log' && term <= term'
    ensures Backed(h', log', k, term')
  {
    if k > 0 {
      var t: nat :| BackedBy(h, log, k, t) && t <= term;
      HoldsLonger(log, h.reigns[t].log, log', h'.reigns[t].log, k);
      assert BackedBy(h', log', k, t);
    }
  }

  lemma BackedShorter(h: History, log: seq<Entry>, k: nat, j: nat, term: nat)
    requires Backed(h, log, k, term) && j <= k
    ensures Backed(h, log, j, term)
  {
    if j > 0 {
      var t: nat :| BackedBy(h, log, k, t) && t <= term;
      HoldsShorter(log, h.reigns[t].log, k, j);
      assert BackedBy(h, log, j, t);
    }
  }

  lemma AckedGrows(h: History, h': History, q: NodeID, t: nat, i: nat)
    requires Acked(h, q, t, i) && Grows(h, h')
    ensures Acked(h', q, t, i)
  {
  }

  lemma CommittedGrows(cl: Cluster, h: History, h': History, t: nat, i: nat)
    requires Committed(cl, h, t, i) && Grows(h, h')
    ensures Committed(cl, h', t, i)
  {
    forall q | q in cl.ids && Acked(h, q, t, i) ensures Acked(h', q, t, i) {
      AckedGrows(h, h', q, t, i);
    }
    QuorumMonotone(cl.membership, Backers(cl, h, t, i), Backers(cl, h', t, i));
  }

  lemma ArgsGrow(h: History, h': History, args: AppendArgs)
    requires ArgsOk(h, args) && Grows(h, h')
    ensures ArgsOk(h', args)
  {
    var log, log' := h.reigns[args.term].log, h'.reigns[args.term].log;
    var last := args.prevIndex + |args.entries|;
    assert log'[args.prevIndex..last] == log[args.prevIndex..last];
    BackedGrows(h, h', log, log', args.leaderCommit, args.term, args.term);
  }

  // ---- Nodes moving on ----

  /** What is kept is never taken back, and nobody becomes a candidate without
      raising its term beyond that. */
  ghost predicate MovesOn(n: Node, n': Node) {
    && Succeeds(n.kept, n'.kept.term, n'.kept.votedFor)
    && (n'.role.Candidate? ==> n'.term > n.kept.term || (n.role.Candidate? && n'.term == n.term && n'.log == n.log))
  }

  ghost predicate Evolves(ns: Nodes, ns': Nodes) {
    ns'.Keys == ns.Keys && forall id | id in ns :: MovesOn(ns[id], ns'[id])
  }

  lemma EvolvesAt(ns: Nodes, id: NodeID, n': Node)
    requires id in ns && MovesOn(ns[id], n')
    ensures Evolves(ns, ns[id := n'])
  {
  }

  lemma MessagesEvolve(ns: Nodes, h: History, ns': Nodes, h': History, msgs: set<Message>)
    requires MessagesOk(ns, h, msgs) && Evolves(ns, ns') && Grows(h, h')
    ensures MessagesOk(ns', h', msgs)
  {
    forall msg | msg in msgs ensures MessageOk(ns', h', msg) {
      assert MessageOk(ns, h, msg);
      match msg
      case VoteRequest(vargs) => {}
      case VoteResponse(_, _, _) => {}
      case AppendRequest(_, _, args) => ArgsGrow(h, h', args);
      case AppendResponse(from, _, args, reply) =>
        ArgsGrow(h, h', args);
        if reply.success {
          AckedGrows(h, h', from, args.term, args.prevIndex + |args.entries|);
        }
    }
  }

  lemma BallotsEvolve(ns: Nodes, h: History, ns': Nodes)
    requires BallotsOk(ns, h) && Evolves(ns, ns')
    ensures BallotsOk(ns', h)
  {
  }

  lemma AcksEvolve(ns: Nodes, h: History, ns': Nodes, h': History)
    requires AcksOk(ns, h) && Evolves(ns, ns') && h'.reigns == h.reigns && h'.acks == h.acks
    ensures AcksOk(ns', h')
  {
    forall a: Slot, j: nat | a in h'.acks && a.node in ns' && j <= h'.acks[a] && Own(h', a.term, j)
      ensures a.term <= ns'[a.node].kept.term
    {
      assert Own(h, a.term, j);
      assert MovesOn(ns[a.node], ns'[a.node]);
    }
  }

  lemma ReignAt(cl: Cluster, ns: Nodes, h: History, t: nat)
    requires ReignsOk(cl, ns, h) && t in h.reigns
    ensures ReignOk(cl, ns, h, t)
  {
  }

  /** A reign that did not change is still in order. */
  lemma ReignEvolves(cl: Cluster, ns: Nodes, h: History, ns': Nodes, h': History, t: nat)
    requires t in h.reigns && ReignOk(cl, ns, h, t)
    requires Evolves(ns, ns') && Grows(h, h')
    requires h'.reigns[t] == h.reigns[t]
    ensures ReignOk(cl, ns', h', t)
  {
    var reign := h.reigns[t];
    RootedGrows(h, h', reign.log);
    if reign.commit > 0 {
      CommittedGrows(cl, h, h', t, reign.commit);
    }
    assert forall v | v in reign.electors :: Voted(h, v, t, reign.leader);
  }

  /** A node that did not change is still in order. */
  lemma NodeEvolves(cl: Cluster, h: History, h': History, id: NodeID, n: Node)
    requires NodeOk(cl, h, id, n) && Grows(h, h')
    requires n.term in h'.reigns && n.term !in h.reigns ==> h'.reigns[n.term].leader != id
    requires n.role.Leader? ==> h'.reigns[n.term] == h.reigns[n.term]
    ensures NodeOk(cl, h', id, n)
  {
    RootedGrows(h, h', n.log);
    BackedGrows(h, h', n.log, n.log, n.commit, n.term, n.term);
    BackedGrows(h, h', n.log, n.log, n.kept.boundary, n.kept.term, n.kept.term);
    if n.role.Candidate? {
      assert forall v | v in n.votes :: Voted(h, v, n.term, id);
    }
    if n.role.Leader? {
      forall p | p in SiteOf(cl, id).peers && p in n.matched &&
          n.matched[p] != 0 ensures Acked(h', p, n.term, n.matched[p]) {
        AckedGrows(h, h', p, n.term, n.matched[p]);
      }
    }
  }

  /** Whoever confirms a position anew had not yet left that term. */
  ghost predicate AcksInTime(ns: Nodes, h: History, h': History) {
    forall q, t: nat, i: nat | Own(h, t, i) && Acked(h', q, t, i) && !Acked(h, q, t, i) ::
      q in ns && ns[q].kept.term <= t
  }

  /** What can be committed later could be committed before. */
  lemma ChoosableShrinks(cl: Cluster, ns: Nodes, h: History, ns': Nodes, h': History, t: nat, i: nat)
    requires Evolves(ns, ns') && Grows(h, h') && AcksInTime(ns, h, h')
    requires Own(h, t, i) && Choosable(cl, ns', h', t, i)
    ensures Choosable(cl, ns, h, t, i)
  {
    QuorumMonotone(cl.membership, Possible(cl, ns', h', t, i), Possible(cl, ns, h, t, i));
  }

  lemma ChoosablesShrink(cl: Cluster, ns: Nodes, h: History, ns': Nodes, h': History)
    requires Evolves(ns, ns') && Grows(h, h') && h'.reigns == h.reigns && h'.acks == h.acks
    ensures forall t: nat, i: nat | Choosable(cl, ns', h', t, i) :: Choosable(cl, ns, h, t, i)
  {
    forall t: nat, i: nat | Choosable(cl, ns', h', t, i) ensures Choosable(cl, ns, h, t, i) {
      assert Own(h, t, i);
      ChoosableShrinks(cl, ns, h, ns', h', t, i);
    }
  }

  /** A committed position is a choosable one. */
  lemma CommittedIsChoosable(cl: Cluster, ns: Nodes, h: History, t: nat, i: nat)
    requires Committed(cl, h, t, i) && ns.Keys == cl.ids
    ensures Choosable(cl, ns, h, t, i)
  {
    QuorumMonotone(cl.membership, Backers(cl, h, t, i), Possible(cl, ns, h, t, i));
  }

  // ---- Carrying the parts of the invariant over a change of one node ----

  lemma NodeAt(cl: Cluster, ns: Nodes, h: History, id: NodeID)
    requires NodesOk(cl, ns, h) && id in ns
    ensures NodeOk(cl, h, id, ns[id]) && ns.Keys == cl.ids
  {
  }

  lemma KeptBelow(cl: Cluster, h: History, id: NodeID, n: Node)
    requires NodeOk(cl, h, id, n)
    ensures n.kept.term <= n.term
  {
  }

  lemma NodesCarry(cl: Cluster, ns: Nodes, h: History, id: NodeID, n': Node, h': History)
    requires NodesOk(cl, ns, h) && id in ns && Grows(h, h') && NodeOk(cl, h', id, n')
    requires forall x | x in ns && x != id ::
               && (ns[x].term in h'.reigns && ns[x].term !in h.reigns ==> h'.reigns[ns[x].term].leader != x)
               && (ns[x].role.Leader? && ns[x].term in h.reigns ==> h'.reigns[ns[x].term] == h.reigns[ns[x].term])
    ensures NodesOk(cl, ns[id := n'], h')
  {
    forall x | x in ns && x != id ensures NodeOk(cl, h', x, ns[x]) {
      assert NodeOk(cl, h, x, ns[x]);
      NodeEvolves(cl, h, h', x, ns[x]);
    }
  }

  lemma ReignsCarry(cl: Cluster, ns: Nodes, h: History, ns': Nodes, h': History)
    requires ReignsOk(cl, ns, h) && Evolves(ns, ns') && Grows(h, h') && h'.reigns == h.reigns
    ensures ReignsOk(cl, ns', h')
  {
    forall t | t in h.reigns ensures ReignOk(cl, ns', h', t) {
      ReignEvolves(cl, ns, h, ns', h', t);
    }
  }

  lemma HeldCarries(cl: Cluster, ns: Nodes, h: History, ns': Nodes, h': History)
    requires HeldOk(cl, ns, h)
    requires Evolves(ns, ns') && Grows(h, h') && h'.reigns == h.reigns && h'.acks == h.acks
    requires forall x | x in ns :: ns'[x].log == ns[x].log
    ensures HeldOk(cl, ns', h')
  {
    ChoosablesShrink(cl, ns, h, ns', h');
  }

  lemma CompleteCarries(cl: Cluster, ns: Nodes, h: History, ns': Nodes, h': History)
    requires Complete(cl, ns, h)
    requires Evolves(ns, ns') && Grows(h, h') && h'.reigns == h.reigns && h'.acks == h.acks
    ensures Complete(cl, ns', h')
  {
    ChoosablesShrink(cl, ns, h, ns', h');
  }

  lemma VotesCarry(cl: Cluster, ns: Nodes, h: History, ns': Nodes)
    requires VotesKeep(cl, ns, h) && BallotsOk(ns, h) && Evolves(ns, ns')
    requires forall x | x in ns :: ns'[x].log == ns[x].log
    ensures VotesKeep(cl, ns', h)
  {
    ChoosablesShrink(cl, ns, h, ns', h);
  }
}
