/** The leader's moves keep the invariant: taking the lead, extending the log,
    committing. */
module RaftLeads {
  import opened Types
  import opened Quorum
  import opened RaftStep
  import opened RaftProtocol
  import opened RaftInvariant
  import opened RaftGrowth

  // ---- Taking the lead ----

  function Crown(h: History, id: NodeID, n: Node): History {
    h.(reigns := h.reigns[n.term := Reign(id, n.votes, n.log, 0)])
  }

  /** A quorum of votes in a term that has a leader are votes for that leader. */
  lemma VotersAgree(cl: Cluster, ns: Nodes, h: History, id: NodeID, votes: set<NodeID>, t: nat)
    requires ReignsOk(cl, ns, h) && t in h.reigns && HasQuorum(cl.membership, votes)
    requires forall v | v in votes :: Voted(h, v, t, id)
    ensures h.reigns[t].leader == id
  {
    assert ReignOk(cl, ns, h, t);
    var v := QuorumsMeet(cl.membership, votes, h.reigns[t].electors);
    assert Voted(h, v, t, id) && Voted(h, v, t, h.reigns[t].leader);
  }

  /** Election safety, one step of it: a candidate with a quorum has no rival in its term. */
  lemma NoRival(cl: Cluster, ns: Nodes, h: History, id: NodeID)
    requires ReignsOk(cl, ns, h) && id in ns
    requires CandidateOk(h, id, ns[id]) && HasQuorum(cl.membership, ns[id].votes)
    ensures ns[id].term !in h.reigns
  {
    if ns[id].term in h.reigns {
      VotersAgree(cl, ns, h, id, ns[id].votes, ns[id].term);
    }
  }

  /** Everything that may yet be committed is in the new leader's log. */
  lemma CrownComplete(cl: Cluster, ns: Nodes, h: History, id: NodeID, t: nat, i: nat)
    requires ns.Keys == cl.ids && BallotsOk(ns, h) && VotesKeep(cl, ns, h) && id in ns
    requires ns[id].role.Candidate? && CandidateOk(h, id, ns[id]) && HasQuorum(cl.membership, ns[id].votes)
    requires t < ns[id].term && Choosable(cl, ns, h, t, i)
    ensures Holds(ns[id].log, h.reigns[t].log, i)
  {
    var v := QuorumsMeet(cl.membership, ns[id].votes, Possible(cl, ns, h, t, i));
    assert Voted(h, v, ns[id].term, id);
    var b := Slot(v, ns[id].term);
    assert b in h.ballots && ns[v].kept.term >= b.term;
    assert Acked(h, v, t, i);
  }

  /** The new reign has no entry of its own yet, so nothing in it can be committed. */
  lemma CrownChoosable(cl: Cluster, ns: Nodes, h: History, id: NodeID, ns': Nodes)
    requires id in ns && CandidateOk(h, id, ns[id]) && ns[id].term !in h.reigns
    requires Evolves(ns, ns') && Grows(h, Crown(h, id, ns[id]))
    ensures forall t: nat, i: nat | Choosable(cl, ns', Crown(h, id, ns[id]), t, i) ::
              t in h.reigns && Choosable(cl, ns, h, t, i)
  {
    var h' := Crown(h, id, ns[id]);
    forall t: nat, i: nat | Choosable(cl, ns', h', t, i) ensures t in h.reigns && Choosable(cl, ns, h, t, i) {
      assert Own(h', t, i);
      assert t != ns[id].term;
      ChoosableShrinks(cl, ns, h, ns', h', t, i);
    }
  }

  lemma CrownHeld(cl: Cluster, ns: Nodes, h: History, id: NodeID, ns': Nodes)
    requires HeldOk(cl, ns, h) && id in ns && CandidateOk(h, id, ns[id]) && ns[id].term !in h.reigns
    requires Evolves(ns, ns') && Grows(h, Crown(h, id, ns[id]))
    requires forall x | x in ns :: ns'[x].log == ns[x].log
    ensures HeldOk(cl, ns', Crown(h, id, ns[id]))
  {
    CrownChoosable(cl, ns, h, id, ns');
  }

  lemma CrownVotes(cl: Cluster, ns: Nodes, h: History, id: NodeID, ns': Nodes)
    requires VotesKeep(cl, ns, h) && BallotsOk(ns, h)
    requires id in ns && CandidateOk(h, id, ns[id]) && ns[id].term !in h.reigns
    requires Evolves(ns, ns') && Grows(h, Crown(h, id, ns[id]))
    requires forall x | x in ns :: ns'[x].log == ns[x].log
    ensures VotesKeep(cl, ns', Crown(h, id, ns[id]))
  {
    CrownChoosable(cl, ns, h, id, ns');
  }

  lemma CrownCompletes(cl: Cluster, ns: Nodes, h: History, id: NodeID, ns': Nodes)
    requires ns.Keys == cl.ids && BallotsOk(ns, h) && VotesKeep(cl, ns, h) && Complete(cl, ns, h) && id in ns
    requires ns[id].role.Candidate? && CandidateOk(h, id, ns[id]) && HasQuorum(cl.membership, ns[id].votes)
    requires ns[id].term !in h.reigns && Evolves(ns, ns') && Grows(h, Crown(h, id, ns[id]))
    ensures Complete(cl, ns', Crown(h, id, ns[id]))
  {
    var h' := Crown(h, id, ns[id]);
    CrownChoosable(cl, ns, h, id, ns');
    forall t: nat, t': nat, i: nat | t' in h'.reigns && t < t' && Choosable(cl, ns', h', t, i)
      ensures Holds(h'.reigns[t'].log, h'.reigns[t].log, i)
    {
      if t' == ns[id].term {
        CrownComplete(cl, ns, h, id, t, i);
      }
    }
  }

  lemma CrownReigns(cl: Cluster, ns: Nodes, h: History, id: NodeID, ns': Nodes)
    requires ReignsOk(cl, ns, h) && id in ns && NodeOk(cl, h, id, ns[id]) && Evolves(ns, ns')
    requires ns[id].role.Candidate? && HasQuorum(cl.membership, ns[id].votes) && ns[id].term !in h.reigns
    requires Grows(h, Crown(h, id, ns[id]))
    ensures ReignsOk(cl, ns', Crown(h, id, ns[id]))
  {
    var h', n := Crown(h, id, ns[id]), ns[id];
    forall t | t in h'.reigns ensures ReignOk(cl, ns', h', t) {
      if t == n.term {
        RootedGrows(h, h', n.log);
        RootedIsConsecutive(cl, ns, h, n.log);
        assert forall v | v in n.votes :: Voted(h, v, t, id);
      } else {
        ReignEvolves(cl, ns, h, ns', h', t);
      }
    }
  }

  /** Rooted logs are numbered from 1. */
  lemma RootedIsConsecutive(cl: Cluster, ns: Nodes, h: History, log: seq<Entry>)
    requires ReignsOk(cl, ns, h) && Rooted(h, log)
    ensures Consecutive(log, 1)
  {
    forall k | 0 <= k < |log| ensures log[k].index == 1 + k {
      var t := log[k].term;
      assert ReignOk(cl, ns, h, t);
      HoldsAt(log, h.reigns[t].log, k + 1, k);
    }
  }

  lemma CrownNode(cl: Cluster, h: History, id: NodeID, n: Node)
    requires NodeOk(cl, h, id, n) && n.role.Candidate? && n.term !in h.reigns
    ensures Grows(h, Crown(h, id, n))
    ensures NodeOk(cl, Crown(h, id, n), id, BecomeLeader(SiteOf(cl, id), n))
    ensures MovesOn(n, BecomeLeader(SiteOf(cl, id), n))
  {
    var h' := Crown(h, id, n);
    RootedGrows(h, h', n.log);
    BackedGrows(h, h', n.log, n.log, n.commit, n.term, n.term);
    BackedGrows(h, h', n.log, n.log, n.kept.boundary, n.kept.term, n.kept.term);
  }

  /** The moment a candidate with a quorum of votes takes the lead. */
  lemma CrownKeeps(cl: Cluster, s: State, h: History, id: NodeID) returns (h': History)
    requires Inv(cl, s, h) && id in s.nodes
    requires s.nodes[id].role.Candidate? && HasQuorum(cl.membership, s.nodes[id].votes)
    ensures Inv(cl, Put(s, id, BecomeLeader(SiteOf(cl, id), s.nodes[id])), h') && Grows(h, h')
  {
    hide NodesOk, BallotsOk, ReignsOk, AcksOk, HeldOk, VotesKeep, Complete, MessagesOk, Grows, Evolves, Rooted, Backed;
    var n := s.nodes[id];
    var n' := BecomeLeader(SiteOf(cl, id), n);
    var ns, ns' := s.nodes, s.nodes[id := n'];
    h' := Crown(h, id, n);
    NodeAt(cl, ns, h, id);
    NoRival(cl, ns, h, id);
    CrownNode(cl, h, id, n);
    EvolvesAt(ns, id, n');
    NodesCarry(cl, ns, h, id, n', h');
    BallotsEvolve(ns, h, ns');
    SameBallots(ns', h, h');
    CrownReigns(cl, ns, h, id, ns');
    CrownAcks(ns, h, ns', h');
    CrownHeld(cl, ns, h, id, ns');
    CrownVotes(cl, ns, h, id, ns');
    CrownCompletes(cl, ns, h, id, ns');
    MessagesEvolve(ns, h, ns', h', s.msgs);
  }

  lemma SameBallots(ns: Nodes, h: History, h': History)
    requires BallotsOk(ns, h) && h'.ballots == h.ballots
    ensures BallotsOk(ns, h')
  {
  }

  lemma CrownAcks(ns: Nodes, h: History, ns': Nodes, h': History)
    requires AcksOk(ns, h) && Evolves(ns, ns') && Grows(h, h') && h'.acks == h.acks
    ensures AcksOk(ns', h')
  {
    forall a: Slot, j: nat | a in h'.acks && a.node in ns' && j <= h'.acks[a] && Own(h', a.term, j)
      ensures a.term <= ns'[a.node].kept.term
    {
      assert Own(h, a.term, j);
      assert MovesOn(ns[a.node], ns'[a.node]);
    }
  }

  // ---- Extending the leader's log ----

  function Extend(h: History, t: nat, e: Entry): History
    requires t in h.reigns
  {
    h.(reigns := h.reigns[t := h.reigns[t].(log := h.reigns[t].log + [e])])
  }

  /** A position appended after a later leader was elected can never be committed. */
  lemma TooLate(cl: Cluster, ns: Nodes, h: History, id: NodeID, e: Entry, t': nat)
    requires ns.Keys == cl.ids && BallotsOk(ns, h) && ReignsOk(cl, ns, h) && AcksOk(ns, h)
    requires id in ns && ns[id].term in h.reigns && h.reigns[ns[id].term].leader == id &&
        ns[id].kept.term <= ns[id].term
    requires t' in h.reigns && ns[id].term < t'
    ensures !Choosable(cl, ns, Extend(h, ns[id].term, e), ns[id].term, |h.reigns[ns[id].term].log| + 1)
  {
    var t := ns[id].term;
    var h', i := Extend(h, t, e), |h.reigns[t].log| + 1;
    if Choosable(cl, ns, h', t, i) {
      assert ReignOk(cl, ns, h, t');
      var v := QuorumsMeet(cl.membership, Possible(cl, ns, h', t, i), h.reigns[t'].electors);
      Unreached(ns, h, id, e, t', v);
    }
  }

  lemma Unreached(ns: Nodes, h: History, id: NodeID, e: Entry, t': nat, v: NodeID)
    requires BallotsOk(ns, h) && AcksOk(ns, h)
    requires id in ns && ns[id].term in h.reigns && h.reigns[ns[id].term].leader == id &&
        ns[id].kept.term <= ns[id].term
    requires ns[id].term < t' && Slot(v, t') in h.ballots
    ensures v in ns && ns[v].kept.term > ns[id].term
    ensures !Acked(Extend(h, ns[id].term, e), v, ns[id].term, |h.reigns[ns[id].term].log| + 1)
  {
    assert Slot(v, t').node == v && ns[v].kept.term >= t';
  }

  lemma ExtendGrows(h: History, t: nat, e: Entry)
    requires t in h.reigns
    ensures Grows(h, Extend(h, t, e))
  {
  }

  /** What can be committed after the extension: an old position, or the new one. */
  lemma ExtendChoosable(cl: Cluster, ns: Nodes, h: History, t: nat, e: Entry, ns': Nodes)
    requires t in h.reigns && Evolves(ns, ns') && Grows(h, Extend(h, t, e))
    ensures forall u: nat, i: nat | Choosable(cl, ns', Extend(h, t, e), u, i) ::
              (Own(h, u, i) && Choosable(cl, ns, h, u, i)) || (u == t && i == |h.reigns[t].log| + 1)
  {
    var h' := Extend(h, t, e);
    forall u: nat, i: nat | Choosable(cl, ns', h', u, i)
      ensures (Own(h, u, i) && Choosable(cl, ns, h, u, i)) || (u == t && i == |h.reigns[t].log| + 1)
    {
      assert Own(h', u, i);
      if !(u == t && i == |h.reigns[t].log| + 1) {
        assert Own(h, u, i);
        ChoosableShrinks(cl, ns, h, ns', h', u, i);
      }
    }
  }

  /** The situation of an extension: the leader `id` appends `e` of its own term. */
  ghost predicate Extending(cl: Cluster, ns: Nodes, h: History, id: NodeID, e: Entry, ns': Nodes) {
    && id in ns && ns[id].role.Leader? && NodeOk(cl, h, id, ns[id])
    && e.term == ns[id].term && e.index == |ns[id].log| + 1
    && ns' == ns[id := ns[id].(log := ns[id].log + [e])]
    && Evolves(ns, ns')
    && Grows(h, Extend(h, ns[id].term, e))
  }

  lemma ExtendReigns(cl: Cluster, ns: Nodes, h: History, id: NodeID, e: Entry, ns': Nodes)
    requires ReignsOk(cl, ns, h) && Extending(cl, ns, h, id, e, ns')
    ensures ReignsOk(cl, ns', Extend(h, ns[id].term, e))
  {
    var t := ns[id].term;
    var h' := Extend(h, t, e);
    forall u | u in h'.reigns ensures ReignOk(cl, ns', h', u) {
      if u == t {
        ExtendReign(cl, ns, h, id, e, ns');
      } else {
        ReignEvolves(cl, ns, h, ns', h', u);
      }
    }
  }

  lemma ExtendReign(cl: Cluster, ns: Nodes, h: History, id: NodeID, e: Entry, ns': Nodes)
    requires Extending(cl, ns, h, id, e, ns')
    requires ns[id].term in h.reigns && ReignOk(cl, ns, h, ns[id].term)
    ensures ReignOk(cl, ns', Extend(h, ns[id].term, e), ns[id].term)
  {
    var t, log := ns[id].term, ns[id].log;
    var h' := Extend(h, t, e);
    ExtendRooted(h, t, log, e);
    assert forall v | v in h.reigns[t].electors :: Voted(h, v, t, id);
    if h.reigns[t].commit > 0 {
      CommittedGrows(cl, h, h', t, h.reigns[t].commit);
    }
  }

  lemma ExtendRooted(h: History, t: nat, log: seq<Entry>, e: Entry)
    requires t in h.reigns && h.reigns[t].log == log && e.term == t && Rooted(h, log) && Grows(h, Extend(h, t, e))
    ensures Rooted(Extend(h, t, e), log + [e])
  {
    var h', log' := Extend(h, t, e), log + [e];
    RootedGrows(h, h', log);
    forall k | 0 <= k < |log'| ensures log'[k].term in h'.reigns && Holds(log', h'.reigns[log'[k].term].log, k + 1) {
      if k < |log| {
        assert log'[k] == log[k];
        HoldsLonger(log, h'.reigns[log[k].term].log, log', h'.reigns[log[k].term].log, k + 1);
      }
    }
  }

  lemma ExtendNode(cl: Cluster, h: History, id: NodeID, n: Node, e: Entry)
    requires NodeOk(cl, h, id, n) && n.role.Leader? && e.term == n.term
    ensures Grows(h, Extend(h, n.term, e))
    ensures NodeOk(cl, Extend(h, n.term, e), id, n.(log := n.log + [e]))
    ensures MovesOn(n, n.(log := n.log + [e]))
  {
    var h' := Extend(h, n.term, e);
    ExtendGrows(h, n.term, e);
    ExtendRooted(h, n.term, n.log, e);
    BackedGrows(h, h', n.log, n.log + [e], n.commit, n.term, n.term);
    BackedGrows(h, h', n.log, n.log + [e], n.kept.boundary, n.kept.term, n.kept.term);
    forall p | p in SiteOf(cl, id).peers && p in n.matched &&
        n.matched[p] != 0 ensures Acked(h', p, n.term, n.matched[p]) {
      AckedGrows(h, h', p, n.term, n.matched[p]);
    }
  }

  lemma ExtendHeld(cl: Cluster, ns: Nodes, h: History, id: NodeID, e: Entry, ns': Nodes)
    requires HeldOk(cl, ns, h) && AcksOk(ns, h) && Extending(cl, ns, h, id, e, ns')
    ensures HeldOk(cl, ns', Extend(h, ns[id].term, e))
  {
    var t := ns[id].term;
    var h' := Extend(h, t, e);
    ExtendChoosable(cl, ns, h, t, e, ns');
    forall q: NodeID, u: nat, i: nat | q in ns' && Acked(h', q, u, i) && Choosable(cl, ns', h', u, i)
      ensures Holds(ns'[q].log, h'.reigns[u].log, i)
    {
      if u == t && i == |h.reigns[t].log| + 1 {
        assert q == id;
      } else {
        assert Acked(h, q, u, i);
        HoldsLonger(ns[q].log, h.reigns[u].log, ns'[q].log, h'.reigns[u].log, i);
      }
    }
  }

  lemma ExtendCompletes(cl: Cluster, ns: Nodes, h: History, id: NodeID, e: Entry, ns': Nodes)
    requires Complete(cl, ns, h) && Extending(cl, ns, h, id, e, ns')
    requires forall t': nat | t' in h.reigns && ns[id].term < t' ::
               !Choosable(cl, ns', Extend(h, ns[id].term, e), ns[id].term, |h.reigns[ns[id].term].log| + 1)
    ensures Complete(cl, ns', Extend(h, ns[id].term, e))
  {
    var t := ns[id].term;
    var h' := Extend(h, t, e);
    ExtendChoosable(cl, ns, h, t, e, ns');
    forall u: nat, u': nat, i: nat | u' in h'.reigns && u < u' && Choosable(cl, ns', h', u, i)
      ensures Holds(h'.reigns[u'].log, h'.reigns[u].log, i)
    {
      assert u' in h.reigns;
      HoldsLonger(h.reigns[u'].log, h.reigns[u].log, h'.reigns[u'].log, h'.reigns[u].log, i);
    }
  }

  lemma ExtendTooLate(cl: Cluster, ns: Nodes, h: History, id: NodeID, e: Entry, ns': Nodes)
    requires ns.Keys == cl.ids && BallotsOk(ns, h) && ReignsOk(cl, ns, h) && AcksOk(ns, h)
    requires Extending(cl, ns, h, id, e, ns')
    ensures forall t': nat | t' in h.reigns && ns[id].term < t' ::
              !Choosable(cl, ns', Extend(h, ns[id].term, e), ns[id].term, |h.reigns[ns[id].term].log| + 1)
  {
    hide BallotsOk, ReignsOk, AcksOk, Choosable;
    forall t': nat | t' in h.reigns && ns[id].term < t'
      ensures !Choosable(cl, ns', Extend(h, ns[id].term, e), ns[id].term, |h.reigns[ns[id].term].log| + 1)
    {
      TooLate(cl, ns, h, id, e, t');
      SamePossible(cl, ns, ns', Extend(h, ns[id].term, e), ns[id].term, |h.reigns[ns[id].term].log| + 1);
    }
  }

  lemma SamePossible(cl: Cluster, ns: Nodes, ns': Nodes, h: History, t: nat, i: nat)
    requires ns'.Keys == ns.Keys && forall x | x in ns :: ns'[x].kept.term == ns[x].kept.term
    ensures Choosable(cl, ns', h, t, i) == Choosable(cl, ns, h, t, i)
  {
    assert Possible(cl, ns', h, t, i) == Possible(cl, ns, h, t, i);
  }

  lemma ExtendVotes(cl: Cluster, ns: Nodes, h: History, id: NodeID, e: Entry, ns': Nodes)
    requires BallotsOk(ns, h) && AcksOk(ns, h) && VotesKeep(cl, ns, h)
    requires Extending(cl, ns, h, id, e, ns')
    ensures VotesKeep(cl, ns', Extend(h, ns[id].term, e))
  {
    var t := ns[id].term;
    var h' := Extend(h, t, e);
    ExtendChoosable(cl, ns, h, t, e, ns');
    forall b: Slot, u: nat, i: nat |
      && b in h'.ballots
      && h'.ballots[b] in ns'
      && ns'[h'.ballots[b]].role.Candidate?
      && ns'[h'.ballots[b]].term == b.term
      && u < b.term
      && Acked(h', b.node, u, i)
      && Choosable(cl, ns', h', u, i)
      ensures Holds(ns'[h'.ballots[b]].log, h'.reigns[u].log, i)
    {
      var c := h.ballots[b];
      if u == t && i == |h.reigns[t].log| + 1 {
        Unreached(ns, h, id, e, b.term, b.node);
      } else {
        assert Acked(h, b.node, u, i);
        HoldsLonger(ns[c].log, h.reigns[u].log, ns[c].log, h'.reigns[u].log, i);
      }
    }
  }

  /** A leader appends an entry of its own term. */
  lemma ExtendKeeps(cl: Cluster, s: State, h: History, id: NodeID, e: Entry) returns (h': History)
    requires Inv(cl, s, h) && id in s.nodes && s.nodes[id].role.Leader?
    requires e.term == s.nodes[id].term && e.index == |s.nodes[id].log| + 1
    ensures Inv(cl, Put(s, id, s.nodes[id].(log := s.nodes[id].log + [e])), h') && Grows(h, h')
  {
    hide NodesOk, BallotsOk, ReignsOk, AcksOk, HeldOk, VotesKeep, Complete, MessagesOk, Grows, Evolves, Rooted, Backed;
    var n := s.nodes[id];
    var n' := n.(log := n.log + [e]);
    var ns, ns' := s.nodes, s.nodes[id := n'];
    NodeAt(cl, ns, h, id);
    h' := Extend(h, n.term, e);
    ExtendNode(cl, h, id, n, e);
    EvolvesAt(ns, id, n');
    OnlyLeader(cl, ns, h, id);
    NodesCarry(cl, ns, h, id, n', h');
    BallotsEvolve(ns, h, ns');
    SameBallots(ns', h, h');
    ExtendReigns(cl, ns, h, id, e, ns');
    CrownAcks(ns, h, ns', h');
    ExtendHeld(cl, ns, h, id, e, ns');
    ExtendVotes(cl, ns, h, id, e, ns');
    ExtendTooLate(cl, ns, h, id, e, ns');
    ExtendCompletes(cl, ns, h, id, e, ns');
    MessagesEvolve(ns, h, ns', h', s.msgs);
  }

  /** No other node leads the leader's term. */
  lemma OnlyLeader(cl: Cluster, ns: Nodes, h: History, id: NodeID)
    requires NodesOk(cl, ns, h) && id in ns && ns[id].role.Leader?
    ensures forall x | x in ns && x != id && ns[x].role.Leader? :: ns[x].term != ns[id].term
  {
    assert NodeOk(cl, h, id, ns[id]);
    forall x | x in ns && x != id && ns[x].role.Leader? ensures ns[x].term != ns[id].term {
      assert NodeOk(cl, h, x, ns[x]);
    }
  }

  // ---- Committing ----

  function Seal(h: History, t: nat, i: nat): History
    requires t in h.reigns
  {
    h.(reigns := h.reigns[t := h.reigns[t].(commit := i)])
  }

  /** The commit rule: an entry of the leader's term on a quorum is committed. */
  lemma CommitRule(cl: Cluster, ns: Nodes, h: History, id: NodeID, i: nat)
    requires ns.Keys == cl.ids && AcksOk(ns, h) && ReignsOk(cl, ns, h)
    requires id in ns && LeaderOk(cl, h, id, ns[id]) && Commits(SiteOf(cl, id), ns[id], i)
    ensures Committed(cl, h, ns[id].term, i)
  {
    var n, site := ns[id], SiteOf(cl, id);
    forall p | p in Replicated(site, n, i) ensures p in Backers(cl, h, n.term, i) {
      if p != id {
        assert Acked(h, p, n.term, n.matched[p]);
        assert ReignOk(cl, ns, h, n.term);
      }
    }
    QuorumMonotone(cl.membership, Replicated(site, n, i), Backers(cl, h, n.term, i));
  }

  lemma SealReigns(cl: Cluster, ns: Nodes, h: History, id: NodeID, i: nat, ns': Nodes)
    requires ReignsOk(cl, ns, h) && id in ns && ns[id].term in h.reigns && Evolves(ns, ns')
    requires Committed(cl, h, ns[id].term, i) && Grows(h, Seal(h, ns[id].term, i))
    ensures ReignsOk(cl, ns', Seal(h, ns[id].term, i))
  {
    var t := ns[id].term;
    var h' := Seal(h, t, i);
    forall u | u in h'.reigns ensures ReignOk(cl, ns', h', u) {
      if u == t {
        CommittedGrows(cl, h, h', t, i);
        assert ReignOk(cl, ns, h, t);
        RootedGrows(h, h', h.reigns[t].log);
        assert forall v | v in h.reigns[t].electors :: Voted(h, v, t, h.reigns[t].leader);
      } else {
        ReignEvolves(cl, ns, h, ns', h', u);
      }
    }
  }

  lemma SealChoosable(cl: Cluster, ns: Nodes, h: History, t: nat, i: nat, ns': Nodes)
    requires t in h.reigns && Evolves(ns, ns') && Grows(h, Seal(h, t, i))
    ensures forall u: nat, j: nat | Choosable(cl, ns', Seal(h, t, i), u, j) ::
              Own(h, u, j) && Choosable(cl, ns, h, u, j)
  {
    var h' := Seal(h, t, i);
    forall u: nat, j: nat | Choosable(cl, ns', h', u, j) ensures Own(h, u, j) && Choosable(cl, ns, h, u, j) {
      assert Own(h', u, j) && Own(h, u, j);
      ChoosableShrinks(cl, ns, h, ns', h', u, j);
    }
  }

  lemma SealHeld(cl: Cluster, ns: Nodes, h: History, t: nat, i: nat, ns': Nodes)
    requires HeldOk(cl, ns, h) && t in h.reigns && Evolves(ns, ns') && Grows(h, Seal(h, t, i))
    requires forall x | x in ns :: ns'[x].log == ns[x].log
    ensures HeldOk(cl, ns', Seal(h, t, i))
  {
    SealChoosable(cl, ns, h, t, i, ns');
  }

  lemma SealVotes(cl: Cluster, ns: Nodes, h: History, t: nat, i: nat, ns': Nodes)
    requires VotesKeep(cl, ns, h) && BallotsOk(ns, h) && t in h.reigns && Evolves(ns, ns') && Grows(h, Seal(h, t, i))
    requires forall x | x in ns :: ns'[x].log == ns[x].log
    ensures VotesKeep(cl, ns', Seal(h, t, i))
  {
    SealChoosable(cl, ns, h, t, i, ns');
  }

  lemma SealCompletes(cl: Cluster, ns: Nodes, h: History, t: nat, i: nat, ns': Nodes)
    requires Complete(cl, ns, h) && t in h.reigns && Evolves(ns, ns') && Grows(h, Seal(h, t, i))
    ensures Complete(cl, ns', Seal(h, t, i))
  {
    SealChoosable(cl, ns, h, t, i, ns');
  }

  lemma SealNode(cl: Cluster, h: History, id: NodeID, n: Node, i: nat)
    requires NodeOk(cl, h, id, n) && n.role.Leader? && n.commit < i <= |n.log|
    ensures Grows(h, Seal(h, n.term, i))
    ensures NodeOk(cl, Seal(h, n.term, i), id, n.(commit := i))
    ensures MovesOn(n, n.(commit := i))
  {
    var h' := Seal(h, n.term, i);
    RootedGrows(h, h', n.log);
    assert BackedBy(h', n.log, i, n.term);
    BackedGrows(h, h', n.log, n.log, n.kept.boundary, n.kept.term, n.kept.term);
  }

  /** A leader raises its commit index to a position the commit rule allows. */
  lemma SealKeeps(cl: Cluster, s: State, h: History, id: NodeID, i: nat) returns (h': History)
    requires Inv(cl, s, h) && id in s.nodes && s.nodes[id].role.Leader?
    requires s.nodes[id].commit < i && Commits(SiteOf(cl, id), s.nodes[id], i)
    ensures Inv(cl, Put(s, id, s.nodes[id].(commit := i)), h') && Grows(h, h')
  {
    hide NodesOk, BallotsOk, ReignsOk, AcksOk, HeldOk, VotesKeep, Complete, MessagesOk, Grows, Evolves, Rooted, Backed;
    var n := s.nodes[id];
    var n' := n.(commit := i);
    var ns, ns' := s.nodes, s.nodes[id := n'];
    NodeAt(cl, ns, h, id);
    h' := Seal(h, n.term, i);
    CommitRule(cl, ns, h, id, i);
    SealNode(cl, h, id, n, i);
    EvolvesAt(ns, id, n');
    OnlyLeader(cl, ns, h, id);
    NodesCarry(cl, ns, h, id, n', h');
    BallotsEvolve(ns, h, ns');
    SameBallots(ns', h, h');
    SealReigns(cl, ns, h, id, i, ns');
    CrownAcks(ns, h, ns', h');
    SealHeld(cl, ns, h, n.term, i, ns');
    SealVotes(cl, ns, h, n.term, i, ns');
    SealCompletes(cl, ns, h, n.term, i, ns');
    MessagesEvolve(ns, h, ns', h', s.msgs);
  }
}
