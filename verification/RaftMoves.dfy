/** The simpler moves a handler is made of, and that each keeps the invariant:
    sending, relaxing, campaigning and voting. */
module RaftMoves {
  import opened Types
  import opened Quorum
  import opened RaftStep
  import opened RaftProtocol
  import opened RaftInvariant
  import opened RaftGrowth

  // ---- Sending ----

  lemma SendKeeps(cl: Cluster, s: State, h: History, msg: Message)
    requires Inv(cl, s, h) && MessageOk(s.nodes, h, msg)
    ensures Inv(cl, Send(s, msg), h)
  {
  }

  // ---- The history stands still ----

  /** The node's log stays; its term may rise; it may step down, count a vote or
      note an acknowledgement. */
  lemma RelaxKeeps(cl: Cluster, s: State, h: History, id: NodeID, n': Node)
    requires Inv(cl, s, h) && id in s.nodes
    requires NodeOk(cl, h, id, n') && n'.log == s.nodes[id].log
    requires MovesOn(s.nodes[id], n')
    ensures Inv(cl, Put(s, id, n'), h)
  {
    hide NodesOk, NodeOk, BallotsOk, ReignsOk, AcksOk, HeldOk, VotesKeep, Complete, MessagesOk, Grows, Evolves;
    EvolvesAt(s.nodes, id, n');
    var ns, ns' := s.nodes, s.nodes[id := n'];
    NodesCarry(cl, ns, h, id, n', h);
    BallotsEvolve(ns, h, ns');
    ReignsCarry(cl, ns, h, ns', h);
    AcksEvolve(ns, h, ns', h);
    HeldCarries(cl, ns, h, ns', h);
    VotesCarry(cl, ns, h, ns');
    CompleteCarries(cl, ns, h, ns', h);
    MessagesEvolve(ns, h, ns', h, s.msgs);
  }

  // ---- Casting a vote ----

  function Cast(h: History, voter: NodeID, term: nat, candidate: NodeID): History {
    h.(ballots := h.ballots[Slot(voter, term) := candidate])
  }

  lemma CastGrows(ns: Nodes, h: History, voter: NodeID, term: nat, candidate: NodeID)
    requires BallotsOk(ns, h) && voter in ns && Succeeds(ns[voter].kept, ns[voter].term, ns[voter].votedFor)
    requires ns[voter].term < term || (ns[voter].term == term && ns[voter].votedFor in [[], candidate])
    ensures Grows(h, Cast(h, voter, term, candidate))
  {
  }

  lemma CastBallots(ns: Nodes, h: History, ns': Nodes, voter: NodeID, candidate: NodeID)
    requires BallotsOk(ns, h) && Evolves(ns, ns') && voter in ns && candidate in ns'
    requires ns'[voter].kept.votedFor == candidate != [] && ns'[voter].kept.term <= ns'[candidate].kept.term
    ensures BallotsOk(ns', Cast(h, voter, ns'[voter].kept.term, candidate))
  {
    BallotsEvolve(ns, h, ns');
  }

  /** A vote that keeps its promise keeps the invariant. */
  lemma CastKeeps(cl: Cluster, s: State, h: History, id: NodeID, n': Node, candidate: NodeID)
    requires Inv(cl, s, h) && id in s.nodes
    requires MovesOn(s.nodes[id], n') && n'.log == s.nodes[id].log
    requires n'.kept.term == n'.term && n'.kept.votedFor == candidate != []
    requires candidate in s.nodes && n'.term <= s.nodes[id := n'][candidate].kept.term
    requires Grows(h, Cast(h, id, n'.term, candidate))
    requires NodeOk(cl, Cast(h, id, n'.term, candidate), id, n')
    requires VotesKeep(cl, s.nodes[id := n'], Cast(h, id, n'.term, candidate))
    ensures Inv(cl, Put(s, id, n'), Cast(h, id, n'.term, candidate))
  {
    hide NodesOk, NodeOk, BallotsOk, ReignsOk, AcksOk, HeldOk, VotesKeep, Complete, MessagesOk, Grows, Evolves;
    EvolvesAt(s.nodes, id, n');
    var h' := Cast(h, id, n'.term, candidate);
    var ns, ns' := s.nodes, s.nodes[id := n'];
    NodesCarry(cl, ns, h, id, n', h');
    CastBallots(ns, h, ns', id, candidate);
    ReignsCarry(cl, ns, h, ns', h');
    AcksEvolve(ns, h, ns', h');
    HeldCarries(cl, ns, h, ns', h');
    CompleteCarries(cl, ns, h, ns', h');
    MessagesEvolve(ns, h, ns', h', s.msgs);
  }

  /** A fresh candidate is in order. */
  lemma CampaignNode(cl: Cluster, ns: Nodes, h: History, id: NodeID)
    requires BallotsOk(ns, h) && ReignsOk(cl, ns, h) && id in ns && NodeOk(cl, h, id, ns[id]) &&
        IsVoter(cl.membership, id)
    ensures var n' := StartElection(SiteOf(cl, id), ns[id], true);
            && Grows(h, Cast(h, id, n'.term, id))
            && NodeOk(cl, Cast(h, id, n'.term, id), id, n')
            && MovesOn(ns[id], n')
  {
    hide ReignsOk, BallotsOk, Rooted, Backed, Grows;
    var n := ns[id];
    var n' := StartElection(SiteOf(cl, id), n, true);
    var h' := Cast(h, id, n'.term, id);
    CastGrows(ns, h, id, n'.term, id);
    RootedGrows(h, h', n.log);
    BackedGrows(h, h', n.log, n.log, n.commit, n.term, n'.term);
    BackedGrows(h, h', n.log, n.log, n.kept.boundary, n.kept.term, n'.kept.term);
    if n'.term in h.reigns {
      ReignAt(cl, ns, h, n'.term);
    }
  }

  lemma CampaignPromise(cl: Cluster, ns: Nodes, h: History, id: NodeID, ns': Nodes, h': History)
    requires HeldOk(cl, ns, h) && id in ns && Evolves(ns, ns') && ns'[id].log == ns[id].log
    requires h' == Cast(h, id, ns'[id].term, id) && Grows(h, h')
    ensures forall t: nat, i: nat | t < ns'[id].term && Acked(h, id, t, i) && Choosable(cl, ns', h', t, i) ::
              Holds(ns'[id].log, h.reigns[t].log, i)
  {
    ChoosablesShrink(cl, ns, h, ns', h');
  }

  /** A candidacy: the term rises by one and the node votes for itself. */
  lemma CampaignKeeps(cl: Cluster, s: State, h: History, id: NodeID) returns (h': History)
    requires Inv(cl, s, h) && id in s.nodes && IsVoter(cl.membership, id)
    ensures Inv(cl, Put(s, id, StartElection(SiteOf(cl, id), s.nodes[id], true)), h') && Grows(h, h')
  {
    hide NodesOk, NodeOk, BallotsOk, ReignsOk, AcksOk, HeldOk, VotesKeep, Complete, MessagesOk, Grows, Evolves;
    var n' := StartElection(SiteOf(cl, id), s.nodes[id], true);
    var ns, ns' := s.nodes, s.nodes[id := n'];
    h' := Cast(h, id, n'.term, id);
    NodeAt(cl, ns, h, id);
    CampaignNode(cl, ns, h, id);
    EvolvesAt(ns, id, n');
    CampaignPromise(cl, ns, h, id, ns', h');
    CastVotesKeep(cl, ns, h, ns', h', id, n'.term, id);
    CastKeeps(cl, s, h, id, n', id);
  }

  /** VotesKeep after one more vote, given that the new vote keeps its promise. */
  lemma CastVotesKeep(cl: Cluster, ns: Nodes, h: History, ns': Nodes, h': History,
                      voter: NodeID, term: nat, candidate: NodeID)
    requires VotesKeep(cl, ns, h) && BallotsOk(ns, h)
    requires Evolves(ns, ns') && h' == Cast(h, voter, term, candidate) && Grows(h, h')
    requires forall c | c in ns && c != voter :: ns'[c] == ns[c]
    requires voter in ns && candidate in ns'
    requires ns'[candidate].role.Candidate? && ns'[candidate].term == term ==>
               forall t: nat, i: nat | t < term && Acked(h, voter, t, i) && Choosable(cl, ns', h', t, i) ::
                 Holds(ns'[candidate].log, h.reigns[t].log, i)
    ensures VotesKeep(cl, ns', h')
  {
    forall b: Slot, t: nat, i: nat |
      && b in h'.ballots
      && h'.ballots[b] in ns'
      && ns'[h'.ballots[b]].role.Candidate?
      && ns'[h'.ballots[b]].term == b.term
      && t < b.term
      && Acked(h', b.node, t, i)
      && Choosable(cl, ns', h', t, i)
      ensures Holds(ns'[h'.ballots[b]].log, h'.reigns[t].log, i)
    {
      if b != Slot(voter, term) {
        ChoosableShrinks(cl, ns, h, ns', h', t, i);
        var c := h.ballots[b];
        assert b.term <= ns[c].kept.term;
      }
    }
  }

  /** The last term of a rooted log is at least any term in it. */
  lemma LastTermAtLeast(cl: Cluster, ns: Nodes, h: History, log: seq<Entry>, i: nat)
    requires ReignsOk(cl, ns, h) && Rooted(h, log) && 1 <= i <= |log|
    ensures log[i - 1].term <= LastTerm(log)
  {
    var last := |log| - 1;
    var t := log[last].term;
    assert Holds(log, h.reigns[t].log, last + 1);
    HoldsAt(log, h.reigns[t].log, last + 1, i - 1);
    assert ReignOk(cl, ns, h, t);
  }

  /** A log that ends in a later leader's entry, or in `t` far enough, holds what that leader holds. */
  lemma LaterLogHolds(h: History, log: seq<Entry>, t: nat, i: nat)
    requires Rooted(h, log) && log != [] && t in h.reigns && TermsUpTo(h.reigns[t].log, t)
    requires LastTerm(log) == t ==> i <= |log|
    requires LastTerm(log) != t ==> t < LastTerm(log) && Holds(h.reigns[LastTerm(log)].log, h.reigns[t].log, i)
    ensures Holds(log, h.reigns[t].log, i)
  {
    var last, later := |log| - 1, LastTerm(log);
    assert Holds(log, h.reigns[later].log, last + 1);
    if later != t && |log| <= i {
      HoldsAt(log, h.reigns[later].log, last + 1, last);
      HoldsAt(h.reigns[later].log, h.reigns[t].log, i, last);
      assert false;
    }
    HoldsShorter(log, h.reigns[later].log, last + 1, i);
  }

  /** A candidate that looks up to date to a voter holds whatever the voter holds and may yet be committed. */
  lemma UpToDateKeeps(cl: Cluster, ns: Nodes, h: History, v: NodeID, c: NodeID, t: nat, i: nat)
    requires ReignsOk(cl, ns, h) && Complete(cl, ns, h)
    requires v in ns && c in ns && Rooted(h, ns[v].log) && Rooted(h, ns[c].log)
    requires UpToDate(ns[v].log, |ns[c].log|, LastTerm(ns[c].log))
    requires Choosable(cl, ns, h, t, i) && Holds(ns[v].log, h.reigns[t].log, i)
    ensures Holds(ns[c].log, h.reigns[t].log, i)
  {
    var vlog, clog := ns[v].log, ns[c].log;
    HoldsAt(vlog, h.reigns[t].log, i, i - 1);
    LastTermAtLeast(cl, ns, h, vlog, i);
    assert ReignOk(cl, ns, h, t);
    if LastTerm(clog) != t {
      assert LastTerm(clog) in h.reigns;
    }
    LaterLogHolds(h, clog, t, i);
  }

  lemma KeptRises(cl: Cluster, h: History, v: NodeID, n: Node, candidate: NodeID)
    requires NodeOk(cl, h, v, n) && (n.votedFor == [] || n.votedFor == candidate)
    ensures NodeOk(cl, h, v, Vote(n, candidate)) && MovesOn(n, Vote(n, candidate))
  {
    hide Rooted;
    BackedGrows(h, h, n.log, n.log, n.kept.boundary, n.kept.term, n.term) by {
      SelfGrows(h);
    }
  }

  lemma SelfGrows(h: History)
    ensures Grows(h, h)
  {
  }

  /** A voter is in order after its vote. */
  lemma VoteNode(cl: Cluster, s: State, h: History, v: NodeID, args: VoteArgs)
    requires NodesOk(cl, s.nodes, h) && BallotsOk(s.nodes, h) && MessagesOk(s.nodes, h, s.msgs)
    requires v in s.nodes && VoteRequest(args) in s.msgs && args.term == s.nodes[v].term
    requires Grants(SiteOf(cl, v), s.nodes[v], args)
    ensures MessageOk(s.nodes, h, VoteRequest(args))
    ensures Grows(h, Cast(h, v, args.term, args.candidate))
    ensures NodeOk(cl, Cast(h, v, args.term, args.candidate), v, Vote(s.nodes[v], args.candidate))
    ensures MovesOn(s.nodes[v], Vote(s.nodes[v], args.candidate))
  {
    assert MessageOk(s.nodes, h, VoteRequest(args));
    assert NodeOk(cl, h, v, s.nodes[v]);
    CastGrows(s.nodes, h, v, args.term, args.candidate);
    NodeEvolves(cl, h, Cast(h, v, args.term, args.candidate), v, s.nodes[v]);
    KeptRises(cl, Cast(h, v, args.term, args.candidate), v, s.nodes[v], args.candidate);
  }

  /** A vote for a candidate whose request is in the network. */
  lemma VoteKeeps(cl: Cluster, s: State, h: History, v: NodeID, args: VoteArgs) returns (h': History)
    requires Inv(cl, s, h) && v in s.nodes
    requires VoteRequest(args) in s.msgs && args.term == s.nodes[v].term
    requires Grants(SiteOf(cl, v), s.nodes[v], args)
    ensures Inv(cl, Put(s, v, Vote(s.nodes[v], args.candidate)), h') && Grows(h, h')
    ensures Voted(h', v, args.term, args.candidate)
  {
    hide NodesOk, NodeOk, BallotsOk, ReignsOk, AcksOk, HeldOk, VotesKeep, Complete, MessagesOk, Grows, Evolves;
    var c := args.candidate;
    var n' := Vote(s.nodes[v], c);
    var ns, ns' := s.nodes, s.nodes[v := n'];
    h' := Cast(h, v, args.term, c);
    VoteNode(cl, s, h, v, args);
    EvolvesAt(ns, v, n');
    if ns'[c].role.Candidate? && ns'[c].term == args.term {
      VotePromise(cl, ns, h, ns', h', v, args);
    }
    CastVotesKeep(cl, ns, h, ns', h', v, args.term, c);
    CastKeeps(cl, s, h, v, n', c);
  }

  lemma VotePromise(cl: Cluster, ns: Nodes, h: History, ns': Nodes, h': History, v: NodeID, args: VoteArgs)
    requires NodesOk(cl, ns, h) && ReignsOk(cl, ns, h) && HeldOk(cl, ns, h) && Complete(cl, ns, h)
    requires v in ns && UpToDate(ns[v].log, args.lastIndex, args.lastTerm)
    requires MessageOk(ns, h, VoteRequest(args))
    requires Evolves(ns, ns') && ns' == ns[v := Vote(ns[v], args.candidate)]
    requires h' == Cast(h, v, args.term, args.candidate) && Grows(h, h')
    requires ns'[args.candidate].role.Candidate? && ns'[args.candidate].term == args.term
    ensures forall t: nat, i: nat | t < args.term && Acked(h, v, t, i) && Choosable(cl, ns', h', t, i) ::
              Holds(ns'[args.candidate].log, h.reigns[t].log, i)
  {
    ChoosablesShrink(cl, ns, h, ns', h');
    forall t: nat, i: nat | t < args.term && Acked(h, v, t, i) && Choosable(cl, ns', h', t, i)
      ensures Holds(ns'[args.candidate].log, h.reigns[t].log, i)
    {
      assert NodeOk(cl, h, v, ns[v]) && NodeOk(cl, h, args.candidate, ns[args.candidate]);
      UpToDateKeeps(cl, ns, h, v, args.candidate, t, i);
    }
  }
}
